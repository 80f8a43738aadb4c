// compact_messages: shortening a conversation without separating a tool
// result from the assistant turn that asked for it.
module Compaction {
  import opened StreamTypes

  /**
   * An OpenAI message. Only assistants carry tool calls (the ids are kept)
   * and only tool messages carry a call id; "" is an absent id.
   */
  datatype Msg =
    | System(body: string)
    | User(body: string)
    | Assistant(body: string, calls: seq<string>)
    | Tool(callId: string, body: string)
    | Other(role: string, body: string)

  function Systems(ms: seq<Msg>): seq<Msg> {
    if ms == [] then [] else (if ms[0].System? then [ms[0]] else []) + Systems(ms[1..])
  }

  function Conversation(ms: seq<Msg>): seq<Msg> {
    if ms == [] then [] else (if ms[0].System? then [] else [ms[0]]) + Conversation(ms[1..])
  }

  /** First user message at or after `k`, or |conv|. */
  function FirstUser(conv: seq<Msg>, k: nat): (r: nat)
    requires k <= |conv|
    ensures k <= r <= |conv|
    ensures r < |conv| ==> conv[r].User?
    ensures forall j | k <= j < r :: !conv[j].User?
    decreases |conv| - k
  {
    if k == |conv| || conv[k].User? then k else FirstUser(conv, k + 1)
  }

  /** Where the kept part starts before orphans are looked at. */
  function InitialCut(conv: seq<Msg>, keepLast: nat): (c: nat)
    requires |conv| > keepLast
    ensures c <= |conv|
  {
    var first := FirstUser(conv, 0);
    var near := FirstUser(conv, |conv| - keepLast);
    if first == |conv| then (if keepLast == 0 then 0 else |conv| - keepLast)
    else if near < |conv| then near else first
  }

  /**
   * The initial cut is at the first user message among the last `keepLast`; if
   * there is none, at the first user message of all; without user messages it
   * keeps the last `keepLast`, or everything for 0.
   */
  lemma InitialCutExactly(conv: seq<Msg>, keepLast: nat)
    requires keepLast < |conv|
    ensures var c, near := InitialCut(conv, keepLast), |conv| - keepLast;
            if exists u | 0 <= u < |conv| :: conv[u].User? then
              && c < |conv| && conv[c].User?
              && (if exists u | near <= u < |conv| :: conv[u].User?
                  then near <= c && forall u | near <= u < c :: !conv[u].User?
                  else forall u | 0 <= u < c :: !conv[u].User?)
            else c == if keepLast == 0 then 0 else near
  {
  }

  predicate CalledBy(m: Msg, id: string) {
    m.Assistant? && id in m.calls
  }

  predicate HasCaller(ms: seq<Msg>, id: string) {
    exists i | 0 <= i < |ms| :: CalledBy(ms[i], id)
  }

  /** A tool result that must sit next to its call. */
  predicate Tied(m: Msg) {
    m.Tool? && m.callId != ""
  }

  /** A tool result whose call exists nowhere. */
  predicate Dangling(conv: seq<Msg>, m: Msg) {
    Tied(m) && !HasCaller(conv, m.callId)
  }

  /** `ms` without the tool results that dangle in `conv`. */
  function Purge(conv: seq<Msg>, ms: seq<Msg>): seq<Msg> {
    if ms == [] then [] else (if Dangling(conv, ms[0]) then [] else [ms[0]]) + Purge(conv, ms[1..])
  }

  /** Keeping from `c` on, every tool result that has a caller keeps one. */
  ghost predicate ClosedAt(conv: seq<Msg>, c: nat) {
    c <= |conv| &&
    forall j | c <= j < |conv| && Tied(conv[j]) && HasCaller(conv, conv[j].callId) :: HasCaller(conv[c..], conv[j].callId)
  }

  /** The largest closed cut at or below `c`. */
  ghost function GreatestClosed(conv: seq<Msg>, c: nat): (r: nat)
    requires c <= |conv|
    ensures r <= c && ClosedAt(conv, r)
    ensures forall d | r < d <= c :: !ClosedAt(conv, d)
  {
    if ClosedAt(conv, c) then c
    else
      ZeroClosed(conv);
      GreatestClosed(conv, c - 1)
  }

  lemma ZeroClosed(conv: seq<Msg>)
    ensures ClosedAt(conv, 0)
  {
    assert conv[0..] == conv;
  }

  /** No call id is used by two assistant messages. */
  ghost predicate UniqueIds(conv: seq<Msg>) {
    forall i, j, id: string | 0 <= i < |conv| && 0 <= j < |conv| && CalledBy(conv[i], id) && CalledBy(conv[j], id) :: i == j
  }

  /** First assistant that made the call, or |conv|. */
  function FirstCaller(conv: seq<Msg>, id: string): (a: nat)
    ensures a <= |conv| && (a < |conv| ==> CalledBy(conv[a], id))
    ensures forall i | 0 <= i < a :: !CalledBy(conv[i], id)
  {
    if conv == [] || CalledBy(conv[0], id) then 0 else 1 + FirstCaller(conv[1..], id)
  }

  /** A tool result whose call exists, but before the cut `c`. */
  ghost predicate IsStray(conv: seq<Msg>, c: nat, m: Msg)
    requires c <= |conv|
  {
    Tied(m) && HasCaller(conv, m.callId) && !HasCaller(conv[c..], m.callId)
  }

  /** Call id of the first stray result in `ms`; "" if there is none. */
  ghost function StrayId(conv: seq<Msg>, c: nat, ms: seq<Msg>): string
    requires c <= |conv|
  {
    if ms == [] then "" else if IsStray(conv, c, ms[0]) then ms[0].callId else StrayId(conv, c, ms[1..])
  }

  /** The cut moves back to the caller of the first stray result, until there is none. */
  ghost function SettledCut(conv: seq<Msg>, c: nat): (r: nat)
    requires c <= |conv|
    ensures r <= c
    decreases c
  {
    var id := StrayId(conv, c, conv[c..]);
    if id == "" || c <= FirstCaller(conv, id) then c else SettledCut(conv, FirstCaller(conv, id))
  }

  /** What compaction returns. */
  ghost function Compacted(messages: seq<Msg>, keepLast: nat): seq<Msg> {
    var conv := Conversation(messages);
    if |messages| <= keepLast || |conv| <= keepLast then messages
    else Systems(messages) + Purge(conv, conv[SettledCut(conv, InitialCut(conv, keepLast))..])
  }

  // ----- where the cut settles -----

  lemma {:induction false} StrayFacts(conv: seq<Msg>, c: nat, ms: seq<Msg>)
    requires c <= |conv|
    ensures StrayId(conv, c, ms) != "" ==> exists m | m in ms :: IsStray(conv, c, m) && m.callId == StrayId(conv, c, ms)
    ensures StrayId(conv, c, ms) == "" ==> forall m | m in ms :: !IsStray(conv, c, m)
  {
    hide HasCaller;
    if ms != [] { StrayFacts(conv, c, ms[1..]); }
  }

  lemma StrayIffOpen(conv: seq<Msg>, c: nat)
    requires c <= |conv|
    ensures StrayId(conv, c, conv[c..]) == "" <==> ClosedAt(conv, c)
  {
    hide HasCaller, StrayId;
    StrayFacts(conv, c, conv[c..]);
    if StrayId(conv, c, conv[c..]) == "" {
      forall j | c <= j < |conv| && Tied(conv[j]) && HasCaller(conv, conv[j].callId) ensures HasCaller(conv[c..], conv[j].callId) {
        assert conv[c..][j - c] == conv[j] && conv[j] in conv[c..];
      }
    } else {
      var m :| m in conv[c..] && IsStray(conv, c, m);
      var k :| c <= k < |conv| && conv[k] == m;
    }
  }

  lemma StrayCaller(conv: seq<Msg>, c: nat)
    requires c <= |conv|
    ensures var id := StrayId(conv, c, conv[c..]);
            id != "" ==> FirstCaller(conv, id) < c && exists j | c <= j < |conv| :: IsStray(conv, c, conv[j]) && conv[j].callId == id
  {
    hide HasCaller, StrayId, FirstCaller;
    var id := StrayId(conv, c, conv[c..]);
    StrayFacts(conv, c, conv[c..]);
    if id != "" {
      var m :| m in conv[c..] && IsStray(conv, c, m) && m.callId == id;
      var k :| c <= k < |conv| && conv[k] == m;
      CallerBefore(conv, c, id);
    }
  }

  lemma CallerBefore(conv: seq<Msg>, c: nat, id: string)
    requires c <= |conv| && HasCaller(conv, id) && !HasCaller(conv[c..], id)
    ensures FirstCaller(conv, id) < c
  {
    hide FirstCaller;
    var a := FirstCaller(conv, id);
    var i :| 0 <= i < |conv| && CalledBy(conv[i], id);
    assert a <= i;
    if c <= i { CalledFrom(conv, c, i, id); }
  }

  lemma CalledFrom(conv: seq<Msg>, c: nat, i: nat, id: string)
    requires c <= i < |conv| && CalledBy(conv[i], id)
    ensures HasCaller(conv[c..], id)
  {
    assert conv[c..][i - c] == conv[i];
  }

  /** The cut settles at a closed one, and at the initial one whenever that is closed. */
  lemma {:induction false} SettledClosed(conv: seq<Msg>, c: nat)
    requires c <= |conv|
    ensures ClosedAt(conv, SettledCut(conv, c)) && (ClosedAt(conv, c) ==> SettledCut(conv, c) == c)
    decreases c
  {
    hide ClosedAt, StrayId, FirstCaller;
    StrayIffOpen(conv, c);
    StrayCaller(conv, c);
    var id := StrayId(conv, c, conv[c..]);
    if id != "" { SettledClosed(conv, FirstCaller(conv, id)); }
  }

  /** No result whose calls all come before it has a closed cut between its first call and itself. */
  ghost predicate NoneBetween(conv: seq<Msg>) {
    forall j: nat, d: nat | j < |conv| && IsStray(conv, j, conv[j]) && FirstCaller(conv, conv[j].callId) < d <= j ::
      !ClosedAt(conv, d)
  }

  /** From every cut of the conversation, the code settles at the greatest closed one. */
  ghost predicate AlwaysGreatest(conv: seq<Msg>) {
    forall c: nat | c <= |conv| :: SettledCut(conv, c) == GreatestClosed(conv, c)
  }

  /** The cut always settles at the greatest closed one exactly when no closed cut lies between a result and its first call. */
  lemma GreatestExactly(conv: seq<Msg>)
    ensures AlwaysGreatest(conv) <==> NoneBetween(conv)
  {
    hide ClosedAt, GreatestClosed, FirstCaller, SettledCut, HasCaller;
    if NoneBetween(conv) {
      forall c: nat | c <= |conv| ensures SettledCut(conv, c) == GreatestClosed(conv, c) { NoneBetweenSettles(conv, c); }
    }
    forall j: nat, d: nat | AlwaysGreatest(conv) && j < |conv| && IsStray(conv, j, conv[j]) && FirstCaller(conv, conv[j].callId) < d <= j
      ensures !ClosedAt(conv, d)
    {
      StrayHere(conv, j);
      assert SettledCut(conv, j) == GreatestClosed(conv, j);
    }
  }

  /** A cut right before a stray result moves to its first call. */
  lemma StrayHere(conv: seq<Msg>, j: nat)
    requires j < |conv| && IsStray(conv, j, conv[j])
    ensures SettledCut(conv, j) <= FirstCaller(conv, conv[j].callId) < j
  {
    hide HasCaller, FirstCaller, SettledCut;
    var id := conv[j].callId;
    assert conv[j..][0] == conv[j];
    assert StrayId(conv, j, conv[j..]) == id;
    CallerBefore(conv, j, id);
    SettledUnfold(conv, j);
  }

  lemma {:induction false} NoneBetweenSettles(conv: seq<Msg>, c: nat)
    requires c <= |conv| && NoneBetween(conv)
    ensures SettledCut(conv, c) == GreatestClosed(conv, c)
    decreases c
  {
    hide ClosedAt, StrayId, GreatestClosed, FirstCaller, HasCaller, NoneBetween;
    StrayIffOpen(conv, c);
    StrayCaller(conv, c);
    var id := StrayId(conv, c, conv[c..]);
    if id == "" {
      ClosedStays(conv, c);
    } else {
      var a := FirstCaller(conv, id);
      var j :| c <= j < |conv| && IsStray(conv, c, conv[j]) && conv[j].callId == id;
      NoneBetweenSettles(conv, a);
      StrayLater(conv, c, j);
      forall d | a < d <= c ensures !ClosedAt(conv, d) { Between(conv, j, d); }
      GreatestSkips(conv, a, c);
    }
  }

  lemma Between(conv: seq<Msg>, j: nat, d: nat)
    requires NoneBetween(conv) && j < |conv| && IsStray(conv, j, conv[j]) && FirstCaller(conv, conv[j].callId) < d <= j
    ensures !ClosedAt(conv, d)
  {
    hide ClosedAt, FirstCaller, HasCaller;
  }

  /** A result stray at a cut is stray at its own place. */
  lemma StrayLater(conv: seq<Msg>, c: nat, j: nat)
    requires c <= j < |conv| && IsStray(conv, c, conv[j])
    ensures IsStray(conv, j, conv[j])
  {
    var id := conv[j].callId;
    if HasCaller(conv[j..], id) {
      var i :| 0 <= i < |conv[j..]| && CalledBy(conv[j..][i], id);
      CalledFrom(conv, c, j + i, id);
    }
  }

  /** With unique ids there is no such cut. */
  lemma UniqueNoneBetween(conv: seq<Msg>)
    requires UniqueIds(conv)
    ensures NoneBetween(conv)
  {
    hide ClosedAt, UniqueIds, HasCaller;
    forall j: nat, d: nat | j < |conv| && IsStray(conv, j, conv[j]) && FirstCaller(conv, conv[j].callId) < d <= j
      ensures !ClosedAt(conv, d)
    {
      LateCutOpen(conv, d, FirstCaller(conv, conv[j].callId), j, conv[j].callId);
    }
  }

  /** With unique ids the cut settles at the greatest closed one. */
  lemma GreatestWhenUnique(conv: seq<Msg>, c: nat)
    requires c <= |conv|
    requires forall i, j, id: string {:trigger id in conv[i].calls, id in conv[j].calls} |
               && 0 <= i < |conv| && 0 <= j < |conv|
               && conv[i].Assistant? && id in conv[i].calls && conv[j].Assistant? && id in conv[j].calls :: i == j
    ensures SettledCut(conv, c) == GreatestClosed(conv, c)
  {
    assert UniqueIds(conv);
    hide UniqueIds, NoneBetween, SettledCut, GreatestClosed;
    UniqueNoneBetween(conv);
    NoneBetweenSettles(conv, c);
  }

  /** The call "x" made twice, then its result. */
  const TWICE: seq<Msg> := [Assistant("", ["x"]), Assistant("", ["x"]), Tool("x", "")]

  /** Keeping one message of this list keeps all three; the greatest closed cut would keep two. */
  lemma DuplicateIds()
    ensures InitialCut(TWICE, 1) == 2 && SettledCut(TWICE, 2) == 0 && GreatestClosed(TWICE, 2) == 1
    ensures Compacted(TWICE, 1) == TWICE && !NoneBetween(TWICE)
  {
    hide GreatestClosed, SettledCut, NoneBetween;
    var conv := TWICE;
    TwiceCut();
    assert CalledBy(conv[0], "x") && CalledBy(conv[1], "x") && HasCaller(conv, "x");
    assert conv[2..] == [conv[2]] && conv[1..][0] == conv[1];
    assert StrayId(conv, 2, conv[2..]) == "x";
    assert FirstCaller(conv, "x") == 0;
    SettledUnfold(conv, 2);
    SettledClosed(conv, 0);
    assert HasCaller(conv[1..], "x");
    GreatestSkips(conv, 1, 2);
    ClosedStays(conv, 1);
    GreatestExactly(conv);
    TwiceKept();
  }

  lemma TwiceCut()
    ensures InitialCut(TWICE, 1) == 2
  {
    assert FirstUser(TWICE, 3) == 3 && FirstUser(TWICE, 2) == 3 && FirstUser(TWICE, 1) == 3;
  }

  lemma TwiceCalled()
    ensures HasCaller(TWICE, "x")
  {
    assert CalledBy(TWICE[0], "x");
  }

  lemma TwiceKept()
    requires SettledCut(TWICE, InitialCut(TWICE, 1)) == 0
    ensures Compacted(TWICE, 1) == TWICE
  {
    hide InitialCut, SettledCut, HasCaller;
    var conv := TWICE;
    assert conv[1..] == [conv[1], conv[2]] && conv[1..][1..] == [conv[2]] && [conv[2]][1..] == [];
    assert Conversation([]) == [] && Conversation([conv[2]]) == [conv[2]];
    assert Conversation(conv[1..]) == conv[1..] && Conversation(conv) == conv;
    assert Systems([conv[2]]) == [] && Systems(conv[1..]) == [] && Systems(conv) == [];
    TwiceCalled();
    assert Purge(conv, [conv[2]]) == [conv[2]] && Purge(conv, conv[1..]) == conv[1..] && Purge(conv, conv) == conv;
    assert conv[0..] == conv;
  }

  lemma GreatestSkips(conv: seq<Msg>, a: nat, c: nat)
    requires a <= c <= |conv| && forall d | a < d <= c :: !ClosedAt(conv, d)
    ensures GreatestClosed(conv, c) == GreatestClosed(conv, a)
  {
    hide ClosedAt;
    var x, y := GreatestClosed(conv, c), GreatestClosed(conv, a);
    assert !(x < y) && !(y < x);
  }

  lemma ClosedStays(conv: seq<Msg>, c: nat)
    requires c <= |conv| && ClosedAt(conv, c)
    ensures GreatestClosed(conv, c) == c
  {
  }

  lemma LateCutOpen(conv: seq<Msg>, d: nat, a: nat, j: nat, id: string)
    requires UniqueIds(conv) && a < d <= j < |conv|
    requires CalledBy(conv[a], id) && Tied(conv[j]) && conv[j].callId == id
    ensures !ClosedAt(conv, d)
  {
    assert HasCaller(conv, id);
    forall i | 0 <= i < |conv[d..]| ensures !CalledBy(conv[d..][i], id) {
      assert conv[d..][i] == conv[d + i];
    }
  }

  // ----- the loop -----

  /** `ms` without the tool messages of the given call ids. */
  function Without(ms: seq<Msg>, ids: set<string>): (r: seq<Msg>)
    ensures |r| <= |ms|
  {
    if ms == [] then [] else (if ms[0].Tool? && ms[0].callId in ids then [] else [ms[0]]) + Without(ms[1..], ids)
  }

  lemma {:induction false} WithoutFacts(ms: seq<Msg>, ids: set<string>)
    ensures forall m | m in Without(ms, ids) :: m in ms && !(m.Tool? && m.callId in ids)
    ensures forall m | m in ms && !(m.Tool? && m.callId in ids) :: m in Without(ms, ids)
  {
    if ms != [] { WithoutFacts(ms[1..], ids); }
  }

  lemma {:induction false} WithoutTwice(ms: seq<Msg>, ids: set<string>, id: string)
    ensures Without(Without(ms, ids), {id}) == Without(ms, ids + {id})
    ensures (exists m | m in Without(ms, ids) :: m.Tool? && m.callId == id) ==> |Without(ms, ids + {id})| < |Without(ms, ids)|
  {
    if ms != [] {
      WithoutTwice(ms[1..], ids, id);
      var rest := Without(ms[1..], ids);
      assert ([ms[0]] + rest)[1..] == rest && [] + rest == rest;
    }
  }

  lemma {:induction false} WithoutNone(ms: seq<Msg>)
    ensures Without(ms, {}) == ms
  {
    if ms != [] { WithoutNone(ms[1..]); }
  }

  /** Removing the dangling ids, and nothing else, is purging. */
  lemma {:induction false} WithoutIsPurge(conv: seq<Msg>, ms: seq<Msg>, ids: set<string>)
    requires forall id | id in ids :: id != "" && !HasCaller(conv, id)
    requires forall m | m in Without(ms, ids) :: !Dangling(conv, m)
    ensures Without(ms, ids) == Purge(conv, ms)
  {
    hide HasCaller;
    if ms != [] {
      var rest := Without(ms[1..], ids);
      forall m | m in rest ensures !Dangling(conv, m) {
        assert m in Without(ms, ids);
      }
      WithoutIsPurge(conv, ms[1..], ids);
      if !(ms[0].Tool? && ms[0].callId in ids) { assert ms[0] in Without(ms, ids); }
    }
  }

  lemma SameCallers(ms: seq<Msg>, ids: set<string>, id: string)
    ensures HasCaller(Without(ms, ids), id) == HasCaller(ms, id)
  {
    WithoutFacts(ms, ids);
    if HasCaller(ms, id) {
      var i :| 0 <= i < |ms| && CalledBy(ms[i], id);
      assert ms[i] in Without(ms, ids);
    }
    var kept := Without(ms, ids);
    if HasCaller(kept, id) {
      var i :| 0 <= i < |kept| && CalledBy(kept[i], id);
      assert kept[i] in ms;
    }
  }

  method FindCaller(conv: seq<Msg>, id: string) returns (a: nat)
    ensures a == FirstCaller(conv, id)
    ensures if exists i | 0 <= i < |conv| :: conv[i].Assistant? && id in conv[i].calls
            then a < |conv| && conv[a].Assistant? && id in conv[a].calls
                 && forall i | 0 <= i < a :: !(conv[i].Assistant? && id in conv[i].calls)
            else a == |conv|
    ensures a == |conv| <==> !HasCaller(conv, id)
  {
    a := 0;
    while a < |conv| && !CalledBy(conv[a], id)
      invariant a <= |conv|
      invariant forall i | 0 <= i < a :: !CalledBy(conv[i], id)
    {
      a := a + 1;
    }
  }

  /** `active_tool_call_ids` */
  method ActiveIds(kept: seq<Msg>) returns (active: set<string>)
    ensures forall id :: id in active <==> exists i | 0 <= i < |kept| :: kept[i].Assistant? && id in kept[i].calls
    ensures forall id :: id in active <==> HasCaller(kept, id)
  {
    active := {};
    for i := 0 to |kept|
      invariant forall id :: id in active <==> exists j | 0 <= j < i :: CalledBy(kept[j], id)
    {
      if kept[i].Assistant? {
        active := active + set id | id in kept[i].calls;
      }
      assert forall id :: CalledBy(kept[i], id) ==> id in active;
    }
  }

  /** What the loop has established about the cut so far. */
  ghost predicate Cutting(conv: seq<Msg>, c0: nat, start: nat, removed: set<string>, kept: seq<Msg>) {
    && start <= c0 <= |conv|
    && kept == Without(conv[start..], removed)
    && (forall id | id in removed :: id != "" && !HasCaller(conv, id))
    && SettledCut(conv, start) == SettledCut(conv, c0)
  }

  /** A caller at or after the start is kept. */
  lemma KeptCaller(conv: seq<Msg>, start: nat, removed: set<string>, a: nat, id: string)
    requires start <= a < |conv| && CalledBy(conv[a], id)
    ensures HasCaller(Without(conv[start..], removed), id)
  {
    hide Without;
    assert conv[start..][a - start] == conv[a];
    SameCallers(conv[start..], removed, id);
  }

  /** Dangling results are never stray, so dropping them does not change the first stray one. */
  lemma {:induction false} StrayWithout(conv: seq<Msg>, c: nat, ms: seq<Msg>, removed: set<string>)
    requires c <= |conv| && forall id | id in removed :: !HasCaller(conv, id)
    ensures StrayId(conv, c, Without(ms, removed)) == StrayId(conv, c, ms)
  {
    hide HasCaller;
    if ms != [] {
      StrayWithout(conv, c, ms[1..], removed);
      var rest := Without(ms[1..], removed);
      assert ([ms[0]] + rest)[1..] == rest && [] + rest == rest;
    }
  }

  lemma {:induction false} FirstStray(conv: seq<Msg>, c: nat, ms: seq<Msg>, k: nat)
    requires c <= |conv| && k < |ms| && IsStray(conv, c, ms[k])
    requires forall j | 0 <= j < k :: !IsStray(conv, c, ms[j])
    ensures StrayId(conv, c, ms) == ms[k].callId
  {
    hide HasCaller;
    if k > 0 {
      assert forall j | 0 <= j < k - 1 :: ms[1..][j] == ms[j + 1];
      FirstStray(conv, c, ms[1..], k - 1);
    }
  }

  /** The first orphan that has a caller sends the cut back there. */
  lemma MoveBack(conv: seq<Msg>, c0: nat, start: nat, removed: set<string>, kept: seq<Msg>, k: nat, a: nat)
    requires Cutting(conv, c0, start, removed, kept)
    requires k < |kept| && Tied(kept[k]) && !HasCaller(kept, kept[k].callId)
    requires forall j | 0 <= j < k && Tied(kept[j]) :: HasCaller(kept, kept[j].callId)
    requires a < |conv| && a == FirstCaller(conv, kept[k].callId)
    ensures a < start && Cutting(conv, c0, a, {}, conv[a..])
  {
    hide Without, HasCaller, SettledCut, FirstCaller;
    var id := kept[k].callId;
    var tail := conv[start..];
    Called(conv, a, id);
    if a >= start { KeptCaller(conv, start, removed, a, id); }
    forall i: string ensures HasCaller(kept, i) == HasCaller(tail, i) { SameCallers(tail, removed, i); }
    FirstStray(conv, start, kept, k);
    StrayWithout(conv, start, tail, removed);
    WithoutNone(conv[a..]);
    SettledUnfold(conv, start);
  }

  lemma Called(conv: seq<Msg>, a: nat, id: string)
    requires a < |conv| && CalledBy(conv[a], id)
    ensures HasCaller(conv, id)
  {
  }

  /** Once no orphan is left, the kept part is the purged tail of a closed cut. */
  lemma Settled(conv: seq<Msg>, c0: nat, start: nat, removed: set<string>, kept: seq<Msg>)
    requires Cutting(conv, c0, start, removed, kept)
    requires forall k | 0 <= k < |kept| && Tied(kept[k]) :: HasCaller(kept, kept[k].callId)
    ensures kept == Purge(conv, conv[start..]) && start == SettledCut(conv, c0)
  {
    hide Without, Purge, SettledCut;
    SettledClosed(conv, start);
    var tail := conv[start..];
    WithoutFacts(tail, removed);
    forall m | m in kept ensures !Dangling(conv, m) {
      if Tied(m) {
        var k :| 0 <= k < |kept| && kept[k] == m;
        SameCallers(tail, removed, m.callId);
        TailCaller(conv, start, m.callId);
      }
    }
    WithoutIsPurge(conv, tail, removed);
    forall j | start <= j < |conv| && Tied(conv[j]) && HasCaller(conv, conv[j].callId)
      ensures HasCaller(tail, conv[j].callId)
    {
      assert tail[j - start] == conv[j];
      assert conv[j] in kept;
      var k :| 0 <= k < |kept| && kept[k] == conv[j];
      SameCallers(tail, removed, conv[j].callId);
    }
  }

  lemma TailCaller(conv: seq<Msg>, start: nat, id: string)
    requires start <= |conv| && HasCaller(conv[start..], id)
    ensures HasCaller(conv, id)
  {
    var i :| 0 <= i < |conv[start..]| && CalledBy(conv[start..][i], id);
    assert CalledBy(conv[start + i], id);
  }

  /** Nothing to do for `m`: its call is kept, or was made at or after the cut point. */
  ghost predicate InPlace(conv: seq<Msg>, cutPoint: nat, active: set<string>, m: Msg) {
    Tied(m) ==> m.callId in active || exists a | cutPoint <= a < |conv| :: CalledBy(conv[a], m.callId)
  }

  lemma PlacedCalled(conv: seq<Msg>, c0: nat, start: nat, removed: set<string>, kept: seq<Msg>, cutPoint: nat,
                     active: set<string>, n: nat)
    requires Cutting(conv, c0, start, removed, kept) && start <= cutPoint && n <= |kept|
    requires forall id :: id in active <==> HasCaller(kept, id)
    requires forall k | 0 <= k < n :: InPlace(conv, cutPoint, active, kept[k])
    ensures forall k | 0 <= k < n && Tied(kept[k]) :: HasCaller(kept, kept[k].callId)
  {
    hide Without, HasCaller, SettledCut;
    forall k | 0 <= k < n && Tied(kept[k]) ensures HasCaller(kept, kept[k].callId) {
      var id := kept[k].callId;
      if id !in active {
        var a :| cutPoint <= a < |conv| && CalledBy(conv[a], id);
        KeptCaller(conv, start, removed, a, id);
      }
    }
  }

  lemma AllInPlace(conv: seq<Msg>, c0: nat, start: nat, removed: set<string>, kept: seq<Msg>, cutPoint: nat, active: set<string>)
    requires Cutting(conv, c0, start, removed, kept) && start <= cutPoint
    requires forall id :: id in active <==> HasCaller(kept, id)
    requires forall k | 0 <= k < |kept| :: InPlace(conv, cutPoint, active, kept[k])
    ensures kept == Purge(conv, conv[start..]) && start == SettledCut(conv, c0)
  {
    hide Cutting, HasCaller, InPlace, SettledCut, Purge;
    PlacedCalled(conv, c0, start, removed, kept, cutPoint, active, |kept|);
    Settled(conv, c0, start, removed, kept);
  }

  /** Dropping a dangling id shortens the kept part. */
  lemma DropStep(conv: seq<Msg>, c0: nat, start: nat, removed: set<string>, kept: seq<Msg>, k: nat)
    requires Cutting(conv, c0, start, removed, kept)
    requires k < |kept| && Tied(kept[k]) && !HasCaller(conv, kept[k].callId)
    ensures var id := kept[k].callId; var less := Without(kept, {id});
            Cutting(conv, c0, start, removed + {id}, less) && |less| < |kept|
  {
    hide Without, HasCaller, SettledCut;
    WithoutTwice(conv[start..], removed, kept[k].callId);
    assert kept[k] in kept;
  }

  /**
   * The orphan loop. With nothing to keep and no user message the source
   * keeps everything although its cut point is the end.
   */
  method DropOrphans(conv: seq<Msg>, c0: nat, cut: nat) returns (kept: seq<Msg>)
    requires c0 <= cut <= |conv| && (c0 == cut || c0 == 0)
    ensures kept == Purge(conv, conv[SettledCut(conv, c0)..])
  {
    hide Without, Purge, HasCaller, InPlace, SettledCut, FirstCaller;
    var cutPoint := cut;
    kept := conv[c0..];
    ghost var start: nat := c0;
    ghost var removed: set<string> := {};
    WithoutNone(conv[c0..]);
    while true
      invariant Cutting(conv, c0, start, removed, kept)
      invariant start <= cutPoint <= |conv|
      decreases cutPoint, |kept|
    {
      var found := false;
      var active := ActiveIds(kept);
      var k := 0;
      while k < |kept|
        invariant k <= |kept|
        invariant forall j | 0 <= j < k :: InPlace(conv, cutPoint, active, kept[j])
      {
        if Tied(kept[k]) && kept[k].callId !in active {
          var id := kept[k].callId;
          var a := FindCaller(conv, id);
          if a < |conv| {
            if a < cutPoint {
              PlacedCalled(conv, c0, start, removed, kept, cutPoint, active, k);
              MoveBack(conv, c0, start, removed, kept, k, a);
              cutPoint, start, removed := a, a, {};
              kept := conv[cutPoint..];
              found := true;
              break;
            }
          } else {
            DropStep(conv, c0, start, removed, kept, k);
            removed := removed + {id};
            kept := Without(kept, {id});
            found := true;
            break;
          }
          assert InPlace(conv, cutPoint, active, kept[k]) by { LateCaller(conv, cutPoint, active, kept[k], a); }
        } else {
          assert InPlace(conv, cutPoint, active, kept[k]) by { Active(conv, cutPoint, active, kept[k]); }
        }
        k := k + 1;
      }
      if !found {
        AllInPlace(conv, c0, start, removed, kept, cutPoint, active);
        break;
      }
    }
  }

  lemma LateCaller(conv: seq<Msg>, cutPoint: nat, active: set<string>, m: Msg, a: nat)
    requires m.Tool? && cutPoint <= a < |conv| && CalledBy(conv[a], m.callId)
    ensures InPlace(conv, cutPoint, active, m)
  {
  }

  lemma Active(conv: seq<Msg>, cutPoint: nat, active: set<string>, m: Msg)
    requires Tied(m) ==> m.callId in active
    ensures InPlace(conv, cutPoint, active, m)
  {
  }

  lemma SplitSnoc(ms: seq<Msg>, k: nat)
    requires k < |ms|
    ensures Systems(ms[..k + 1]) == Systems(ms[..k]) + (if ms[k].System? then [ms[k]] else [])
    ensures Conversation(ms[..k + 1]) == Conversation(ms[..k]) + (if ms[k].System? then [] else [ms[k]])
  {
    assert ms[..k + 1] == ms[..k] + [ms[k]];
    SplitAppend(ms[..k], [ms[k]]);
  }

  lemma {:induction false} SplitAppend(a: seq<Msg>, b: seq<Msg>)
    ensures Systems(a + b) == Systems(a) + Systems(b)
    ensures Conversation(a + b) == Conversation(a) + Conversation(b)
  {
    if a == [] {
      assert a + b == b;
    } else {
      SplitAppend(a[1..], b);
      var s, c := if a[0].System? then [a[0]] else [], if a[0].System? then [] else [a[0]];
      SplitCons(a, b, s, c);
      Assoc(s, Systems(a[1..]), Systems(b));
      Assoc(c, Conversation(a[1..]), Conversation(b));
    }
  }

  lemma SplitCons(a: seq<Msg>, b: seq<Msg>, s: seq<Msg>, c: seq<Msg>)
    requires a != []
    requires s == (if a[0].System? then [a[0]] else []) && c == (if a[0].System? then [] else [a[0]])
    ensures Systems(a + b) == s + Systems(a[1..] + b) && Systems(a) == s + Systems(a[1..])
    ensures Conversation(a + b) == c + Conversation(a[1..] + b) && Conversation(a) == c + Conversation(a[1..])
  {
    assert (a + b)[0] == a[0] && (a + b)[1..] == a[1..] + b;
  }

  /**
   * compact_messages. Short inputs come back as they are. Otherwise: all
   * system messages, then the conversation from where the cut settles, without
   * the tool results whose call exists nowhere.
   */
  method CompactMessages(messages: seq<Msg>, keepLast: nat) returns (result: seq<Msg>)
    ensures result == Compacted(messages, keepLast)
  {
    hide SettledCut, Purge;
    if |messages| <= keepLast {
      return messages;
    }
    var systemMsgs, conversation: seq<Msg> := [], [];
    for i := 0 to |messages|
      invariant systemMsgs == Systems(messages[..i]) && conversation == Conversation(messages[..i])
    {
      SplitSnoc(messages, i);
      if messages[i].System? {
        systemMsgs := systemMsgs + [messages[i]];
      } else {
        conversation := conversation + [messages[i]];
      }
    }
    assert messages[..|messages|] == messages;
    if |conversation| <= keepLast {
      return messages;
    }
    var n := |conversation|;
    var first := FirstUser(conversation, 0);
    var cut := n - keepLast;
    var c0 := InitialCut(conversation, keepLast);
    if first < n {
      var near := FirstUser(conversation, n - keepLast);
      cut := if near < n then near else first;
    }
    var kept := DropOrphans(conversation, c0, cut);
    result := systemMsgs + kept;
  }

  // ----- what compaction guarantees -----

  /** No tool result with an id is left without its call: the request stays acceptable upstream. */
  lemma NoOrphans(conv: seq<Msg>, c: nat, j: nat)
    requires c <= |conv| && ClosedAt(conv, c)
    requires var kept := Purge(conv, conv[c..]); j < |kept| && Tied(kept[j])
    ensures var kept := Purge(conv, conv[c..]); HasCaller(kept, kept[j].callId)
  {
    hide HasCaller, ClosedAt;
    var tail := conv[c..];
    var kept := Purge(conv, tail);
    PurgeFacts(conv, tail);
    assert kept[j] in kept;
    var i :| 0 <= i < |tail| && tail[i] == kept[j];
    assert HasCaller(tail, kept[j].callId) by { ClosedHas(conv, c, c + i); }
    PurgeCallers(conv, tail, kept[j].callId);
  }

  /**
   * In what compaction returns of an input it shortens, every tool result with
   * an id is answered for by a kept assistant; and behind the cut only results
   * whose call no assistant ever made are dropped.
   */
  lemma NothingOrphaned(messages: seq<Msg>, keepLast: nat)
    requires |messages| > keepLast && |Conversation(messages)| > keepLast
    ensures var kept, conv := Compacted(messages, keepLast), Conversation(messages);
            && (forall m | m in kept && m.Tool? && m.callId != "" ::
                  exists a | a in kept :: a.Assistant? && m.callId in a.calls)
            && exists c | 0 <= c <= InitialCut(conv, keepLast) ::
                 forall m | m in conv[c..] ::
                   m in kept || (m.Tool? && m.callId != "" && forall a | a in conv && a.Assistant? :: m.callId !in a.calls)
  {
    hide ClosedAt, SettledCut, InitialCut, Purge, Systems, Conversation;
    var conv := Conversation(messages);
    var c := SettledCut(conv, InitialCut(conv, keepLast));
    var tail := Purge(conv, conv[c..]);
    SettledClosed(conv, InitialCut(conv, keepLast));
    PurgeFacts(conv, conv[c..]);
    SystemsOnly(messages);
    forall m | m in Systems(messages) + tail && Tied(m) ensures exists a | a in tail :: a.Assistant? && m.callId in a.calls {
      assert m in tail;
      var j :| 0 <= j < |tail| && tail[j] == m;
      NoOrphans(conv, c, j);
      var i :| 0 <= i < |tail| && CalledBy(tail[i], m.callId);
      assert tail[i] in tail;
    }
    forall m | m in conv[c..] && m !in tail
      ensures Tied(m) && forall a | a in conv && a.Assistant? :: m.callId !in a.calls
    {
      assert Dangling(conv, m);
      forall a | a in conv && a.Assistant? ensures m.callId !in a.calls {
        var i :| 0 <= i < |conv| && conv[i] == a;
        assert !CalledBy(conv[i], m.callId);
      }
    }
  }

  lemma {:induction false} SystemsOnly(ms: seq<Msg>)
    ensures forall m | m in Systems(ms) :: m.System?
  {
    if ms != [] { SystemsOnly(ms[1..]); }
  }

  lemma ClosedHas(conv: seq<Msg>, c: nat, j: nat)
    requires ClosedAt(conv, c) && c <= j < |conv| && Tied(conv[j]) && HasCaller(conv, conv[j].callId)
    ensures HasCaller(conv[c..], conv[j].callId)
  {
  }

  lemma {:induction false} PurgeFacts(conv: seq<Msg>, ms: seq<Msg>)
    ensures forall m | m in Purge(conv, ms) :: m in ms && !Dangling(conv, m)
    ensures forall m | m in ms && !Dangling(conv, m) :: m in Purge(conv, ms)
    ensures |Purge(conv, ms)| <= |ms|
  {
    hide HasCaller;
    if ms != [] { PurgeFacts(conv, ms[1..]); }
  }

  lemma PurgeCallers(conv: seq<Msg>, ms: seq<Msg>, id: string)
    requires HasCaller(ms, id)
    ensures HasCaller(Purge(conv, ms), id)
  {
    PurgeFacts(conv, ms);
    var i :| 0 <= i < |ms| && CalledBy(ms[i], id);
    assert ms[i] in Purge(conv, ms);
    var kept := Purge(conv, ms);
    var k :| 0 <= k < |kept| && kept[k] == ms[i];
    assert CalledBy(kept[k], id);
  }

  /** Between a call and its result the user never speaks. */
  ghost predicate Orderly(conv: seq<Msg>) {
    forall a, u, j | 0 <= a < u < j < |conv| && Tied(conv[j]) && CalledBy(conv[a], conv[j].callId) :: !conv[u].User?
  }

  /** In an orderly conversation a cut at a user message is closed. */
  lemma UserCutClosed(conv: seq<Msg>, u: nat)
    requires Orderly(conv) && u < |conv| && conv[u].User?
    ensures ClosedAt(conv, u)
  {
    forall j | u <= j < |conv| && Tied(conv[j]) && HasCaller(conv, conv[j].callId)
      ensures HasCaller(conv[u..], conv[j].callId)
    {
      var a :| 0 <= a < |conv| && CalledBy(conv[a], conv[j].callId);
      assert u < j;
      if a >= u {
        assert CalledBy(conv[u..][a - u], conv[j].callId);
      }
    }
  }

  lemma FirstUserLeast(conv: seq<Msg>, k: nat)
    requires k <= |conv|
    ensures FirstUser(conv, 0) <= FirstUser(conv, k)
  {
    var q := FirstUser(conv, k);
    assert q < |conv| ==> conv[q].User?;
  }

  /** With a user message among the last `keepLast`, no more than that is kept. */
  lemma SizeBound(messages: seq<Msg>, keepLast: nat)
    requires var conv := Conversation(messages);
             && |messages| > keepLast && |conv| > keepLast && Orderly(conv)
             && FirstUser(conv, |conv| - keepLast) < |conv|
    ensures |Compacted(messages, keepLast)| <= |Systems(messages)| + keepLast
  {
    hide ClosedAt, Orderly, Purge, FirstUser, Systems, Conversation, SettledCut;
    var conv := Conversation(messages);
    var c0 := InitialCut(conv, keepLast);
    FirstUserLeast(conv, |conv| - keepLast);
    UserCutClosed(conv, c0);
    SettledClosed(conv, c0);
    PurgeFacts(conv, conv[c0..]);
  }

  // ----- compacting twice -----

  lemma {:induction false} NoSystems(ms: seq<Msg>)
    requires forall m | m in ms :: !m.System?
    ensures Systems(ms) == [] && Conversation(ms) == ms
  {
    if ms != [] { NoSystems(ms[1..]); }
  }

  lemma {:induction false} SplitKinds(ms: seq<Msg>)
    ensures forall m | m in Systems(ms) :: m.System?
    ensures forall m | m in Conversation(ms) :: !m.System?
  {
    if ms != [] { SplitKinds(ms[1..]); }
  }

  lemma {:induction false} OnlySystems(ms: seq<Msg>)
    requires forall m | m in ms :: m.System?
    ensures Systems(ms) == ms && Conversation(ms) == []
  {
    if ms != [] { OnlySystems(ms[1..]); }
  }

  /** Every tool result with an id has a caller somewhere. */
  ghost predicate AllCalled(conv: seq<Msg>) {
    forall j | 0 <= j < |conv| && Tied(conv[j]) :: HasCaller(conv, conv[j].callId)
  }

  lemma {:induction false} NothingToPurge(conv: seq<Msg>, ms: seq<Msg>)
    requires forall m | m in ms :: !Dangling(conv, m)
    ensures Purge(conv, ms) == ms
  {
    hide Dangling;
    if ms != [] { NothingToPurge(conv, ms[1..]); }
  }

  /** In the shortened conversation the initial cut is the old one. */
  lemma SameInitialCut(conv: seq<Msg>, keepLast: nat, c: nat)
    requires |conv| > keepLast && c <= InitialCut(conv, keepLast) && |conv| - c > keepLast
    ensures InitialCut(conv[c..], keepLast) == InitialCut(conv, keepLast) - c
  {
    hide FirstUser;
    var t := |conv| - keepLast;
    FirstUserTail(conv, c, t - c);
    FirstUserTail(conv, c, 0);
    FirstUserMoves(conv, c);
  }

  /** Leaving out `c` messages, the first user message is the old one, or at least not before `c`. */
  lemma FirstUserMoves(conv: seq<Msg>, c: nat)
    requires c <= |conv|
    ensures if FirstUser(conv, 0) < c then conv[FirstUser(conv, 0)].User? else FirstUser(conv, c) == FirstUser(conv, 0)
  {
    if c <= FirstUser(conv, 0) { FirstUserFrom(conv, 0, c); }
  }

  lemma FirstUserIs(conv: seq<Msg>, k: nat, r: nat)
    requires k <= r <= |conv| && (r < |conv| ==> conv[r].User?)
    requires forall j | k <= j < r :: !conv[j].User?
    ensures FirstUser(conv, k) == r
  {
  }

  lemma FirstUserTail(conv: seq<Msg>, c: nat, k: nat)
    requires c + k <= |conv|
    ensures FirstUser(conv[c..], k) == FirstUser(conv, c + k) - c
  {
    var r := FirstUser(conv, c + k) - c;
    assert forall j | k <= j < r :: !conv[c..][j].User?;
    FirstUserIs(conv[c..], k, r);
  }

  lemma FirstUserFrom(conv: seq<Msg>, k: nat, c: nat)
    requires k <= c <= |conv| && c <= FirstUser(conv, k)
    ensures FirstUser(conv, c) == FirstUser(conv, k)
  {
    FirstUserIs(conv, c, FirstUser(conv, k));
  }

  lemma CallersFrom(conv: seq<Msg>, c: nat, id: string)
    requires c <= FirstCaller(conv, id)
    ensures FirstCaller(conv[c..], id) == FirstCaller(conv, id) - c
  {
    var a, b := FirstCaller(conv, id), FirstCaller(conv[c..], id);
    assert b < |conv[c..]| ==> conv[c..][b] == conv[c + b];
    assert a < |conv| ==> conv[c..][a - c] == conv[a];
  }

  /** In the tail of a closed cut, the same results are stray. */
  lemma {:induction false} StrayInside(conv: seq<Msg>, c: nat, x: nat, ms: seq<Msg>)
    requires ClosedAt(conv, c) && c <= x <= |conv| && forall m | m in ms :: m in conv[c..]
    ensures StrayId(conv[c..], x - c, ms) == StrayId(conv, x, ms)
  {
    hide ClosedAt;
    if ms != [] {
      assert conv[c..][x - c..] == conv[x..];
      assert ms[0] in conv[c..];
      if Tied(ms[0]) { ClosedSame(conv, c, ms[0]); }
      StrayInside(conv, c, x, ms[1..]);
    }
  }

  lemma ClosedSame(conv: seq<Msg>, c: nat, m: Msg)
    requires ClosedAt(conv, c) && m in conv[c..] && Tied(m)
    ensures HasCaller(conv[c..], m.callId) == HasCaller(conv, m.callId)
  {
    hide HasCaller;
    var j :| c <= j < |conv| && conv[j] == m;
    if HasCaller(conv[c..], m.callId) { TailCaller(conv, c, m.callId); }
  }

  /** From a settled cut on, the cut settles at the start. */
  lemma {:induction false} SettledInside(conv: seq<Msg>, c: nat, x: nat)
    requires c <= x <= |conv| && SettledCut(conv, x) == c
    ensures SettledCut(conv[c..], x - c) == 0
    decreases x
  {
    hide ClosedAt, StrayId, FirstCaller, SettledCut;
    SettledClosed(conv, x);
    StrayInside(conv, c, x, conv[x..]);
    assert conv[c..][x - c..] == conv[x..];
    StrayCaller(conv, x);
    SettledUnfold(conv, x);
    SettledUnfold(conv[c..], x - c);
    var id := StrayId(conv, x, conv[x..]);
    if id != "" {
      var a := FirstCaller(conv, id);
      CallersFrom(conv, c, id);
      SettledInside(conv, c, a);
    }
  }

  lemma SettledUnfold(conv: seq<Msg>, c: nat)
    requires c <= |conv|
    ensures var id := StrayId(conv, c, conv[c..]);
            SettledCut(conv, c) == if id == "" || c <= FirstCaller(conv, id) then c else SettledCut(conv, FirstCaller(conv, id))
  {
    hide StrayId, FirstCaller;
  }

  /** System messages and a tail of the conversation come apart again. */
  lemma Recombined(messages: seq<Msg>, c: nat)
    requires c <= |Conversation(messages)|
    ensures var tail := Conversation(messages)[c..];
            Systems(Systems(messages) + tail) == Systems(messages) && Conversation(Systems(messages) + tail) == tail
  {
    hide Systems, Conversation;
    var systems, tail := Systems(messages), Conversation(messages)[c..];
    SplitKinds(messages);
    OnlySystems(systems);
    NoSystems(tail);
    SplitAppend(systems, tail);
    assert systems + [] == systems && [] + tail == tail;
  }

  /** When every tool result has a caller, compacting again changes nothing. */
  lemma CompactTwice(messages: seq<Msg>, keepLast: nat)
    requires AllCalled(Conversation(messages))
    ensures Compacted(Compacted(messages, keepLast), keepLast) == Compacted(messages, keepLast)
  {
    hide AllCalled, ClosedAt, Purge, HasCaller, InitialCut, SettledCut, Systems, Conversation;
    var conv := Conversation(messages);
    if |messages| > keepLast && |conv| > keepLast {
      var c0 := InitialCut(conv, keepLast);
      var c := SettledCut(conv, c0);
      SettledClosed(conv, c0);
      var tail := conv[c..];
      ConvCalled(conv, c);
      NothingToPurge(conv, tail);
      assert Compacted(messages, keepLast) == Systems(messages) + tail;
      Recombined(messages, c);
      if |tail| > keepLast {
        SameInitialCut(conv, keepLast, c);
        SettledInside(conv, c, c0);
        assert tail[0..] == tail;
        TailCalled(conv, c);
        NothingToPurge(tail, tail);
      }
    }
  }

  lemma ConvCalled(conv: seq<Msg>, c: nat)
    requires AllCalled(conv) && c <= |conv|
    ensures forall m | m in conv[c..] :: !Dangling(conv, m)
  {
    hide HasCaller;
    forall m | m in conv[c..] ensures !Dangling(conv, m) {
      assert m in conv;
    }
  }

  lemma TailCalled(conv: seq<Msg>, c: nat)
    requires AllCalled(conv) && ClosedAt(conv, c)
    ensures forall m | m in conv[c..] :: !Dangling(conv[c..], m)
  {
    hide HasCaller;
    forall m | m in conv[c..] ensures !Dangling(conv[c..], m) {
      var j :| c <= j < |conv| && conv[j] == m;
    }
  }
}
