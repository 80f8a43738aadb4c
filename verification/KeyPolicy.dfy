// Per-key policy: what the admin API accepts, and what the proxy then does with it.
module KeyPolicy {
  import opened StreamTypes
  import opened Whitespace

  /** A JSON object's members, in order; names are distinct. */
  type Members<V> = seq<(string, V)>

  predicate Names<V>(d: Members<V>, k: string) {
    exists i | 0 <= i < |d| :: d[i].0 == k
  }

  predicate UniqueNames<V>(d: Members<V>) {
    forall i, j | 0 <= i < j < |d| :: d[i].0 != d[j].0
  }

  // ----- renames -----

  /** The renames that are not blank, stripped, in order. */
  function Renames(input: Members<string>): Members<string> {
    if input == [] then []
    else (if Strip(input[0].1) == "" then [] else [(input[0].0, Strip(input[0].1))]) + Renames(input[1..])
  }

  /** A rename of `model` to the stripped, non-empty `alias`. */
  predicate AliasFits(input: Members<string>, allowed: seq<string>, model: string, alias: string) {
    (allowed == [] || model in allowed) && |alias| <= 100 && (Names(input, alias) ==> alias == model)
  }

  predicate DistinctAliases(d: Members<string>) {
    forall i, j | 0 <= i < j < |d| :: d[i].1 != d[j].1
  }

  predicate AliasesFit(input: Members<string>, allowed: seq<string>, d: Members<string>) {
    DistinctAliases(d) && forall i | 0 <= i < |d| :: AliasFits(input, allowed, d[i].0, d[i].1)
  }

  function AliasSet(d: Members<string>): set<string> {
    set i | 0 <= i < |d| :: d[i].1
  }

  /** The renames of an accepted object, and the set of names they take; None if refused. */
  method ParseAliases(input: Members<string>, allowed: seq<string>) returns (aliases: Option<Members<string>>, seen: set<string>)
    ensures aliases == if AliasesFit(input, allowed, Renames(input)) then Some(Renames(input)) else None
    ensures aliases.Some? ==> seen == AliasSet(Renames(input))
  {
    hide Strip, AliasFits;
    var kept: Members<string> := [];
    seen := {};
    for k := 0 to |input|
      invariant Renames(input) == kept + Renames(input[k..]) && seen == AliasSet(kept)
      invariant AliasesFit(input, allowed, kept)
    {
      var model, alias := input[k].0, Strip(input[k].1);
      var rest := Renames(input[k + 1..]);
      assert input[k..][0] == input[k] && input[k..][1..] == input[k + 1..];
      if alias == "" {
        assert [] + rest == rest;
        continue;
      }
      Assoc(kept, [(model, alias)], rest);
      FitSnoc(input, allowed, kept, model, alias);
      FitPrefix(input, allowed, kept + [(model, alias)], rest);
      if !AliasFits(input, allowed, model, alias) || alias in seen {
        return None, seen;
      }
      seen := seen + {alias};
      kept := kept + [(model, alias)];
    }
    assert input[|input|..] == [] && kept + [] == kept;
    return Some(kept), seen;
  }

  lemma FitSnoc(input: Members<string>, allowed: seq<string>, d: Members<string>, model: string, alias: string)
    ensures AliasesFit(input, allowed, d + [(model, alias)]) <==>
            AliasesFit(input, allowed, d) && AliasFits(input, allowed, model, alias) && alias !in AliasSet(d)
    ensures AliasSet(d + [(model, alias)]) == AliasSet(d) + {alias}
  {
    hide AliasFits;
    var all := d + [(model, alias)];
    assert all[|d|] == (model, alias) && forall i | 0 <= i < |d| :: all[i] == d[i];
    if alias in AliasSet(d) {
      var i :| 0 <= i < |d| && d[i].1 == alias;
      assert all[i].1 == all[|d|].1;
    }
  }

  lemma FitPrefix(input: Members<string>, allowed: seq<string>, d: Members<string>, more: Members<string>)
    ensures AliasesFit(input, allowed, d + more) ==> AliasesFit(input, allowed, d)
  {
    hide AliasFits;
    assert forall i | 0 <= i < |d| :: (d + more)[i] == d[i];
  }

  // ----- which renames are accepted, in terms of what is given -----

  /** The stored renames are the given ones, stripped, without the blank ones. */
  lemma {:induction false} RenamesExactly(input: Members<string>)
    ensures forall model, alias ::
              (model, alias) in Renames(input) <==>
              alias != "" && exists i | 0 <= i < |input| :: input[i].0 == model && Strip(input[i].1) == alias
  {
    hide Strip;
    if input != [] {
      RenamesExactly(input[1..]);
      assert forall i | 0 < i < |input| :: input[i] == input[1..][i - 1];
    }
  }

  /** What one given rename must meet. */
  predicate RenameMeets(input: Members<string>, allowed: seq<string>, model: string, alias: string) {
    && (allowed != [] ==> model in allowed) && |alias| < 101
    && forall j | 0 <= j < |input| && input[j].0 == alias :: alias == model
  }

  /**
   * Renames are accepted exactly when each one that is not blank is for an
   * allowed model (for any, without a list), has at most 100 characters and is
   * not the name of another renamed model, and no two are equal once stripped.
   */
  lemma RenamesAcceptedExactly(input: Members<string>, allowed: seq<string>)
    ensures AliasesFit(input, allowed, Renames(input)) <==>
            && (forall i | 0 <= i < |input| && Strip(input[i].1) != "" :: RenameMeets(input, allowed, input[i].0, Strip(input[i].1)))
            && forall i, j | 0 <= i < j < |input| && Strip(input[i].1) != "" :: Strip(input[i].1) != Strip(input[j].1)
  {
    hide Strip, Renames;
    FitsExactly(input, allowed, input);
    RenamesDistinct(input);
  }

  /** Where a stored rename was given. */
  lemma GivenAt(input: Members<string>, k: nat) returns (i: nat)
    requires k < |Renames(input)|
    ensures i < |input| && input[i].0 == Renames(input)[k].0 && Strip(input[i].1) == Renames(input)[k].1 != ""
  {
    hide Strip, Renames;
    RenamesExactly(input);
    var r := Renames(input)[k];
    assert r == (r.0, r.1) && r in Renames(input);
    i :| 0 <= i < |input| && input[i].0 == r.0 && Strip(input[i].1) == r.1;
  }

  /** Where a given rename is stored. */
  lemma StoredAt(input: Members<string>, i: nat) returns (k: nat)
    requires i < |input| && Strip(input[i].1) != ""
    ensures k < |Renames(input)| && Renames(input)[k] == (input[i].0, Strip(input[i].1))
  {
    hide Strip, Renames;
    RenamesExactly(input);
    assert (input[i].0, Strip(input[i].1)) in Renames(input);
    k :| 0 <= k < |Renames(input)| && Renames(input)[k] == (input[i].0, Strip(input[i].1));
  }

  lemma FitsExactly(input: Members<string>, allowed: seq<string>, some: Members<string>)
    ensures (forall k | 0 <= k < |Renames(some)| :: AliasFits(input, allowed, Renames(some)[k].0, Renames(some)[k].1)) <==>
            forall i | 0 <= i < |some| && Strip(some[i].1) != "" :: RenameMeets(input, allowed, some[i].0, Strip(some[i].1))
  {
    hide Strip, Renames, AliasFits, RenameMeets;
    var d := Renames(some);
    if forall k | 0 <= k < |d| :: AliasFits(input, allowed, d[k].0, d[k].1) {
      forall i | 0 <= i < |some| && Strip(some[i].1) != "" ensures RenameMeets(input, allowed, some[i].0, Strip(some[i].1)) {
        var k := StoredAt(some, i);
        OneFits(input, allowed, d[k].0, d[k].1);
      }
    }
    if forall i | 0 <= i < |some| && Strip(some[i].1) != "" :: RenameMeets(input, allowed, some[i].0, Strip(some[i].1)) {
      forall k | 0 <= k < |d| ensures AliasFits(input, allowed, d[k].0, d[k].1) {
        var i := GivenAt(some, k);
        OneFits(input, allowed, d[k].0, d[k].1);
      }
    }
  }

  lemma OneFits(input: Members<string>, allowed: seq<string>, model: string, alias: string)
    ensures AliasFits(input, allowed, model, alias) <==> RenameMeets(input, allowed, model, alias)
  {
  }

  lemma {:induction false} RenamesDistinct(input: Members<string>)
    ensures DistinctAliases(Renames(input)) <==>
            forall i, j | 0 <= i < j < |input| && Strip(input[i].1) != "" :: Strip(input[i].1) != Strip(input[j].1)
  {
    hide Strip;
    if input != [] {
      var rest := input[1..];
      RenamesDistinct(rest);
      RenamesExactly(rest);
      assert forall j | 0 < j < |input| :: input[j] == rest[j - 1];
      hide Renames;
      HeadDistinct(input, rest);
    }
  }

  lemma ConsDistinct(x: (string, string), d: Members<string>)
    ensures DistinctAliases([x] + d) <==> DistinctAliases(d) && forall k | 0 <= k < |d| :: d[k].1 != x.1
  {
    var all := [x] + d;
    assert forall k | 0 <= k < |d| :: all[k + 1] == d[k];
    if DistinctAliases(all) {
      forall i, j | 0 <= i < j < |d| ensures d[i].1 != d[j].1 { assert all[i + 1].1 != all[j + 1].1; }
      forall k | 0 <= k < |d| ensures d[k].1 != x.1 { assert all[0].1 != all[k + 1].1; }
    }
  }

  lemma RenamesCons(input: Members<string>)
    requires input != []
    ensures var a := Strip(input[0].1); Renames(input) == (if a == "" then [] else [(input[0].0, a)]) + Renames(input[1..])
  {
    hide Strip;
  }

  lemma HeadDistinct(input: Members<string>, rest: Members<string>)
    requires input != [] && rest == input[1..]
    ensures var a := Strip(input[0].1);
            DistinctAliases(Renames(input)) <==>
            DistinctAliases(Renames(rest)) && (a != "" ==> forall j | 0 < j < |input| :: Strip(input[j].1) != a)
  {
    hide Strip, DistinctAliases, Renames;
    var a, d := Strip(input[0].1), Renames(rest);
    RenamesCons(input);
    if a == "" {
      assert [] + d == d;
    } else {
      ConsDistinct((input[0].0, a), d);
      AliasAgain(input, rest, a);
    }
  }

  lemma AliasAgain(input: Members<string>, rest: Members<string>, a: string)
    requires input != [] && rest == input[1..] && a != ""
    ensures (forall k | 0 <= k < |Renames(rest)| :: Renames(rest)[k].1 != a) <==> forall j | 0 < j < |input| :: Strip(input[j].1) != a
  {
    hide Strip, Renames;
    var d := Renames(rest);
    if forall k | 0 <= k < |d| :: d[k].1 != a {
      forall j | 0 < j < |input| ensures Strip(input[j].1) != a {
        assert rest[j - 1] == input[j];
        if Strip(input[j].1) == a { var k := StoredAt(rest, j - 1); }
      }
    }
    if forall j | 0 < j < |input| :: Strip(input[j].1) != a {
      forall k | 0 <= k < |d| ensures d[k].1 != a {
        var i := GivenAt(rest, k);
        assert input[i + 1] == rest[i];
      }
    }
  }

  // ----- routes -----

  const MAX_MODEL_ROUTES := 20
  const MAX_ROUTE_CANDIDATES := 24

  predicate Alphanumeric(c: char) {
    'a' <= c <= 'z' || 'A' <= c <= 'Z' || '0' <= c <= '9'
  }

  /** `[A-Za-z0-9][A-Za-z0-9._:/-]{0,99}` */
  predicate RouteName(s: string) {
    1 <= |s| <= 100 && Alphanumeric(s[0]) && forall i | 0 <= i < |s| :: Alphanumeric(s[i]) || s[i] in "._:/-"
  }

  /** `more`, stripped, without blanks and repetitions, after `got`. */
  function Deduped(got: seq<string>, more: seq<string>): seq<string>
    decreases |more|
  {
    if more == [] then got
    else
      var c := Strip(more[0]);
      Deduped(if c == "" || c in got then got else got + [c], more[1..])
  }

  predicate CandidateFits<V>(routes: Members<V>, name: string, c: string) {
    c == "" || (|c| <= 200 && c != name && !Names(routes, c))
  }

  predicate CandidatesFit<V>(routes: Members<V>, name: string, given: seq<string>) {
    forall i | 0 <= i < |given| :: CandidateFits(routes, name, Strip(given[i]))
  }

  /** What a route may not be called: renamed models, renames, allowed models. */
  datatype Taken = Taken(renamed: set<string>, aliases: set<string>, allowed: set<string>)

  predicate RouteFits(routes: Members<seq<string>>, taken: Taken, key: string, given: seq<string>) {
    var name, kept := Strip(key), Deduped([], given);
    && RouteName(name) && name !in taken.renamed && name !in taken.aliases && name !in taken.allowed
    && CandidatesFit(routes, name, given) && 1 <= |kept| <= MAX_ROUTE_CANDIDATES
  }

  predicate RoutesFit(routes: Members<seq<string>>, taken: Taken, end: nat)
    requires end <= |routes|
  {
    forall i | 0 <= i < end :: RouteFits(routes, taken, routes[i].0, routes[i].1)
  }

  /** The stored object: a later name that strips to an earlier one replaces it. */
  function Stored(routes: Members<seq<string>>): map<string, seq<string>>
    decreases |routes|
  {
    if routes == [] then map[]
    else
      var r := routes[|routes| - 1];
      Stored(routes[..|routes| - 1])[Strip(r.0) := Deduped([], r.1)]
  }

  method ParseCandidates(routes: Members<seq<string>>, name: string, given: seq<string>) returns (candidates: Option<seq<string>>)
    ensures candidates ==
            if CandidatesFit(routes, name, given) && 1 <= |Deduped([], given)| <= MAX_ROUTE_CANDIDATES
            then Some(Deduped([], given)) else None
  {
    hide Strip, CandidateFits;
    var kept: seq<string> := [];
    for i := 0 to |given|
      invariant forall j | 0 <= j < i :: CandidateFits(routes, name, Strip(given[j]))
      invariant Deduped(kept, given[i..]) == Deduped([], given)
    {
      assert given[i..][0] == given[i] && given[i..][1..] == given[i + 1..];
      var c := Strip(given[i]);
      BlankFits(routes, name);
      if c == "" { continue; }
      if !CandidateFits(routes, name, c) { return None; }
      if c !in kept {
        kept := kept + [c];
      }
    }
    assert given[|given|..] == [];
    if kept == [] { return None; }
    if |kept| > MAX_ROUTE_CANDIDATES { return None; }
    return Some(kept);
  }

  lemma BlankFits<V>(routes: Members<V>, name: string)
    ensures CandidateFits(routes, name, "")
  {
  }

  method ParseRoutes(routes: Members<seq<string>>, taken: Taken) returns (stored: Option<map<string, seq<string>>>)
    ensures stored == if |routes| <= MAX_MODEL_ROUTES && RoutesFit(routes, taken, |routes|) then Some(Stored(routes)) else None
  {
    hide Strip, CandidatesFit, RouteName, Deduped;
    if |routes| > MAX_MODEL_ROUTES { return None; }
    var kept := map[];
    for i := 0 to |routes|
      invariant RoutesFit(routes, taken, i) && kept == Stored(routes[..i])
    {
      var name := Strip(routes[i].0);
      if !RouteName(name) { return None; }
      if name in taken.renamed || name in taken.aliases { return None; }
      if name in taken.allowed { return None; }
      var candidates := ParseCandidates(routes, name, routes[i].1);
      if candidates.None? { return None; }
      kept := kept[name := candidates.value];
      assert routes[..i + 1][..i] == routes[..i];
    }
    assert routes[..|routes|] == routes;
    return Some(kept);
  }

  // ----- which routes are accepted, in terms of what is given -----

  /** ASCII letters and digits, by their codes. */
  predicate LetterOrDigit(c: char) {
    var n := c as int; 48 <= n < 58 || 65 <= n < 91 || 97 <= n < 123
  }

  /** Up to 100 letters, digits and `.`, `_`, `:`, `/`, `-`, the first a letter or digit. */
  lemma RouteNameExactly(s: string)
    ensures RouteName(s) <==>
            0 < |s| < 101 && LetterOrDigit(s[0])
            && forall i | 0 <= i < |s| :: LetterOrDigit(s[i]) || s[i] in {'.', '_', ':', '/', '-'}
  {
    hide Alphanumeric, LetterOrDigit;
    forall c: char ensures Alphanumeric(c) == LetterOrDigit(c) { SameChars(c); }
    assert forall c: char :: c in "._:/-" <==> c in {'.', '_', ':', '/', '-'};
  }

  lemma SameChars(c: char)
    ensures Alphanumeric(c) == LetterOrDigit(c)
  {
  }

  /** The different candidates of a list, stripped, blanks left out. */
  function Different(given: seq<string>): set<string> {
    set i | 0 <= i < |given| && Strip(given[i]) != "" :: Strip(given[i])
  }

  predicate NoRepeats(q: seq<string>) {
    forall i, j | 0 <= i < j < |q| :: q[i] != q[j]
  }

  function AsSet(q: seq<string>): set<string> {
    set c | c in q
  }

  lemma {:induction false} SizeOf(q: seq<string>)
    requires NoRepeats(q)
    ensures |AsSet(q)| == |q|
    decreases |q|
  {
    if q == [] {
      assert AsSet(q) == {};
    } else {
      var n := |q| - 1;
      SizeOf(q[..n]);
      assert q[n] !in AsSet(q[..n]);
      assert AsSet(q) == AsSet(q[..n]) + {q[n]};
    }
  }

  lemma {:induction false} DedupedMembers(got: seq<string>, more: seq<string>)
    requires NoRepeats(got)
    ensures NoRepeats(Deduped(got, more)) && AsSet(Deduped(got, more)) == AsSet(got) + Different(more)
    decreases |more|
  {
    hide Strip;
    if more == [] {
      assert Different(more) == {};
    } else {
      var c := Strip(more[0]);
      var next := if c == "" || c in got then got else got + [c];
      assert AsSet(next) == AsSet(got) + if c == "" then {} else {c};
      DedupedMembers(next, more[1..]);
      assert Different(more) == (if c == "" then {} else {c}) + Different(more[1..]) by { DifferentCons(more); }
    }
  }

  lemma DifferentCons(more: seq<string>)
    requires more != []
    ensures var c := Strip(more[0]); Different(more) == (if c == "" then {} else {c}) + Different(more[1..])
  {
    hide Strip;
    assert forall i | 0 < i < |more| :: more[i] == more[1..][i - 1];
  }

  /**
   * Routes are accepted exactly when there are at most 20, each name is a route name once stripped
   * and none that is taken, no candidate is over 200 characters, the route
   * itself or a name as given, and 1 to 24 different candidates remain.
   */
  lemma RoutesAcceptedExactly(routes: Members<seq<string>>, taken: Taken)
    ensures |routes| <= MAX_MODEL_ROUTES && RoutesFit(routes, taken, |routes|) <==>
            |routes| < 21 && forall i | 0 <= i < |routes| ::
              && RouteName(Strip(routes[i].0))
              && Strip(routes[i].0) !in taken.renamed + taken.aliases + taken.allowed
              && (forall c | c in Different(routes[i].1) ::
                    |c| < 201 && c != Strip(routes[i].0) && forall j | 0 <= j < |routes| :: routes[j].0 != c)
              && 0 < |Different(routes[i].1)| < 25
  {
    hide Strip, RouteName, Deduped, Different, CandidatesFit;
    forall i | 0 <= i < |routes|
      ensures |Deduped([], routes[i].1)| == |Different(routes[i].1)|
      ensures CandidatesFit(routes, Strip(routes[i].0), routes[i].1) <==>
              forall c | c in Different(routes[i].1) ::
                |c| < 201 && c != Strip(routes[i].0) && forall j | 0 <= j < |routes| :: routes[j].0 != c
    {
      CandidatesExactly(routes, Strip(routes[i].0), routes[i].1);
      assert NoRepeats([]) && AsSet([]) == {};
      DedupedMembers([], routes[i].1);
      SizeOf(Deduped([], routes[i].1));
      assert AsSet(Deduped([], routes[i].1)) == Different(routes[i].1);
    }
  }

  lemma CandidatesExactly(routes: Members<seq<string>>, name: string, given: seq<string>)
    ensures CandidatesFit(routes, name, given) <==>
            forall c | c in Different(given) :: |c| < 201 && c != name && forall j | 0 <= j < |routes| :: routes[j].0 != c
  {
    hide Strip;
    if CandidatesFit(routes, name, given) {
      forall c | c in Different(given) ensures |c| < 201 && c != name && forall j | 0 <= j < |routes| :: routes[j].0 != c {
        var i :| 0 <= i < |given| && Strip(given[i]) == c && c != "";
        assert CandidateFits(routes, name, Strip(given[i]));
      }
    }
    if forall c | c in Different(given) :: |c| < 201 && c != name && forall j | 0 <= j < |routes| :: routes[j].0 != c {
      forall i | 0 <= i < |given| ensures CandidateFits(routes, name, Strip(given[i])) {
        if Strip(given[i]) != "" { assert Strip(given[i]) in Different(given); }
      }
    }
  }

  // ----- the proxy's reading of a key -----

  /** A stored key: the joined allowlist, the renames, the routes. */
  datatype Key = Key(allowed: string, aliases: Members<string>, routes: map<string, seq<string>>)

  function Clean(given: seq<string>): seq<string> {
    if given == [] then []
    else (if Strip(given[0]) == "" then [] else [Strip(given[0])]) + Clean(given[1..])
  }

  function Capped(c: seq<string>): seq<string> {
    if |c| <= MAX_ROUTE_CANDIDATES then c else c[..MAX_ROUTE_CANDIDATES]
  }

  /** `_key_model_routes` on any stored object. */
  function RoutesRead(stored: map<string, seq<string>>): map<string, seq<string>> {
    map name | name in stored && Clean(stored[name]) != [] :: Capped(Clean(stored[name]))
  }

  method KeyModelRoutes(stored: map<string, seq<string>>) returns (routes: map<string, seq<string>>)
    ensures routes == RoutesRead(stored)
  {
    hide Clean;
    routes := map[];
    var todo := stored.Keys;
    while todo != {}
      invariant todo <= stored.Keys
      invariant forall name :: name in routes <==> name in stored && name !in todo && Clean(stored[name]) != []
      invariant forall name | name in routes :: routes[name] == Capped(Clean(stored[name]))
      decreases todo
    {
      var name :| name in todo;
      var clean := Clean(stored[name]);
      if clean != [] {
        routes := routes[name := if |clean| <= MAX_ROUTE_CANDIDATES then clean else clean[..MAX_ROUTE_CANDIDATES]];
      }
      todo := todo - {name};
    }
  }

  lemma {:induction false} CleanExactly(given: seq<string>)
    ensures forall c :: c in Clean(given) <==> c in Different(given)
    ensures |Clean(given)| <= |given|
  {
    hide Strip;
    if given != [] {
      CleanExactly(given[1..]);
      DifferentCons(given);
    }
  }

  /** Whatever is stored, a name is a route if it has a candidate that is not blank; the first 24 of those, stripped, are read. */
  lemma ReadsExactly(stored: map<string, seq<string>>, name: string)
    ensures name in RoutesRead(stored) <==> name in stored && Different(stored[name]) != {}
    ensures name in RoutesRead(stored) ==>
              var read := RoutesRead(stored)[name];
              && |read| <= 24 && (forall c | c in read :: c in Different(stored[name]))
              && (|stored[name]| <= 24 ==> forall c | c in Different(stored[name]) :: c in read)
              && read <= Clean(stored[name])
  {
    hide Strip, Different, Clean;
    if name in stored {
      CleanExactly(stored[name]);
      var c := Clean(stored[name]);
      if c != [] { assert c[0] in Different(stored[name]); }
    }
  }

  /** Comma-separated parts of `s`. */
  function Split(s: string): (parts: seq<string>)
    ensures parts != []
  {
    if s == "" then [""]
    else
      var rest := Split(s[1..]);
      if s[0] == ',' then [""] + rest else [[s[0]] + rest[0]] + rest[1..]
  }

  function Join(names: seq<string>): string {
    if names == [] then ""
    else if |names| == 1 then names[0]
    else names[0] + "," + Join(names[1..])
  }

  /** `{m.strip() for m in raw.split(",") if m.strip()}` */
  function AllowedSet(raw: string): set<string> {
    var parts := Split(raw);
    set i | 0 <= i < |parts| && Strip(parts[i]) != "" :: Strip(parts[i])
  }

  predicate Routed(routes: map<string, seq<string>>, model: string) {
    exists name | name in routes :: model in routes[name]
  }

  /** The request state a route's private clone carries. */
  datatype Clone = Outside | Inside(candidate: string)

  /** `_model_allowed_for_key` returns no error. */
  predicate Permitted(k: Key, clone: Clone, model: string) {
    var routes := RoutesRead(k.routes);
    if model in routes then true
    else if clone.Inside? && model == clone.candidate && Routed(routes, model) then true
    else if Routed(routes, model) then false
    else model in AllowedSet(Strip(k.allowed)) || Strip(k.allowed) == ""
  }

  /** The real model behind a requested name: the first model renamed to it, else the name. */
  function Resolve(aliases: Members<string>, requested: string): string {
    if aliases == [] then requested
    else if aliases[0].1 == requested then aliases[0].0
    else Resolve(aliases[1..], requested)
  }

  method ResolveAlias(aliases: Members<string>, requested: string) returns (model: string)
    ensures model == Resolve(aliases, requested)
  {
    for i := 0 to |aliases|
      invariant Resolve(aliases[i..], requested) == Resolve(aliases, requested)
    {
      assert aliases[i..][0] == aliases[i] && aliases[i..][1..] == aliases[i + 1..];
      if aliases[i].1 == requested { return aliases[i].0; }
    }
    assert aliases[|aliases|..] == [];
    return requested;
  }

  /** `aliases.get(m, m)` */
  function Shown(aliases: Members<string>, model: string): string {
    if aliases == [] then model
    else if aliases[0].0 == model then aliases[0].1
    else Shown(aliases[1..], model)
  }

  /** Catalog ids the key may call directly. */
  predicate Visible(k: Key, catalog: seq<string>, model: string) {
    var raw := Strip(k.allowed);
    model in catalog && (raw == "" || model in AllowedSet(raw)) && !Routed(RoutesRead(k.routes), model)
  }

  /** The names `list_models` gives: visible ids under their renames, and the routes. */
  predicate Listed(k: Key, catalog: seq<string>, name: string) {
    name in RoutesRead(k.routes) ||
    exists i | 0 <= i < |catalog| :: Visible(k, catalog, catalog[i]) && Shown(k.aliases, catalog[i]) == name
  }

  // ----- coherence -----

  /** Settings the admin API accepted, as stored. */
  ghost predicate Accepted(k: Key, allowed: seq<string>, aliasesIn: Members<string>, routesIn: Members<seq<string>>) {
    && UniqueNames(aliasesIn) && UniqueNames(routesIn)
    && (forall i | 0 <= i < |allowed| :: Bare(allowed[i]) && allowed[i] != "")
    && AliasesFit(aliasesIn, allowed, Renames(aliasesIn))
    && |routesIn| <= MAX_MODEL_ROUTES && RoutesFit(routesIn, TakenBy(allowed, aliasesIn), |routesIn|)
    && k == Key(Join(allowed), Renames(aliasesIn), Stored(routesIn))
  }

  function TakenBy(allowed: seq<string>, aliasesIn: Members<string>): Taken {
    Taken(set i | 0 <= i < |aliasesIn| :: aliasesIn[i].0, AliasSet(Renames(aliasesIn)), set i | 0 <= i < |allowed| :: allowed[i])
  }

  /** The shape the validator gives a candidate list. */
  predicate Tidy(c: seq<string>) {
    forall i | 0 <= i < |c| :: c[i] != "" && Strip(c[i]) == c[i]
  }

  lemma {:induction false} DedupedTidy(got: seq<string>, more: seq<string>)
    requires Tidy(got)
    ensures Tidy(Deduped(got, more))
    ensures forall c | c in Deduped(got, more) :: c in got || exists i | 0 <= i < |more| :: Strip(more[i]) == c
    decreases |more|
  {
    if more != [] {
      var c := Strip(more[0]);
      StripBare(more[0]);
      hide Strip;
      DedupedTidy(if c == "" || c in got then got else got + [c], more[1..]);
      assert forall i | 0 <= i < |more[1..]| :: more[1..][i] == more[i + 1];
    }
  }

  lemma TidyTail(c: seq<string>)
    requires Tidy(c) && c != []
    ensures Tidy(c[1..]) && c[0] != "" && Strip(c[0]) == c[0]
  {
    hide Strip;
  }

  lemma {:induction false} CleanTidy(c: seq<string>)
    requires Tidy(c)
    ensures Clean(c) == c
  {
    hide Strip, Tidy;
    if c != [] {
      TidyTail(c);
      CleanTidy(c[1..]);
    }
  }

  /** What is known of every stored route. */
  lemma {:induction false} StoredFacts(routes: Members<seq<string>>, taken: Taken, end: nat, name: string)
    requires end <= |routes| && RoutesFit(routes, taken, |routes|) && name in Stored(routes[..end])
    ensures exists i | 0 <= i < end :: name == Strip(routes[i].0) && Stored(routes[..end])[name] == Deduped([], routes[i].1)
    ensures var c := Stored(routes[..end])[name];
            Tidy(c) && 1 <= |c| <= MAX_ROUTE_CANDIDATES
            && name !in taken.aliases && name !in taken.allowed && name !in taken.renamed
    decreases end
  {
    hide Strip, Deduped, RouteName, CandidatesFit, Tidy;
    if end > 0 {
      var r := routes[end - 1];
      assert routes[..end][..end - 1] == routes[..end - 1];
      if name == Strip(r.0) {
        assert RouteFits(routes, taken, r.0, r.1);
        assert Tidy([]) by { NothingTidy(); }
        DedupedTidy([], r.1);
      } else {
        StoredFacts(routes, taken, end - 1, name);
      }
    }
  }

  lemma NothingTidy()
    ensures Tidy([])
  {
  }

  /** The proxy reads back exactly the routes the admin API stored. */
  lemma ReaderExact(k: Key, allowed: seq<string>, aliasesIn: Members<string>, routesIn: Members<seq<string>>)
    requires Accepted(k, allowed, aliasesIn, routesIn)
    ensures RoutesRead(k.routes) == k.routes
  {
    hide Strip, Deduped, RoutesFit, Stored, AliasesFit, Clean, Tidy;
    assert routesIn[..|routesIn|] == routesIn;
    forall name | name in k.routes ensures Clean(k.routes[name]) != [] && Capped(Clean(k.routes[name])) == k.routes[name] {
      StoredFacts(routesIn, TakenBy(allowed, aliasesIn), |routesIn|, name);
      CleanTidy(k.routes[name]);
    }
  }

  // ----- what a listed name leads to -----

  lemma {:induction false} ResolveIs(aliases: Members<string>, i: nat)
    requires i < |aliases| && DistinctAliases(aliases)
    ensures Resolve(aliases, aliases[i].1) == aliases[i].0
  {
    if i > 0 {
      assert aliases[0].1 != aliases[i].1 && aliases[1..][i - 1] == aliases[i];
      ResolveIs(aliases[1..], i - 1);
    }
  }

  lemma {:induction false} ResolveMisses(aliases: Members<string>, name: string)
    ensures (exists i | 0 <= i < |aliases| :: aliases[i] == (Resolve(aliases, name), name))
            || (Resolve(aliases, name) == name && forall i | 0 <= i < |aliases| :: aliases[i].1 != name)
  {
    if aliases != [] && aliases[0].1 != name {
      ResolveMisses(aliases[1..], name);
      assert forall i | 0 < i < |aliases| :: aliases[i] == aliases[1..][i - 1];
    } else if aliases != [] {
      assert aliases[0] == (Resolve(aliases, name), name);
    }
  }

  lemma {:induction false} ShownIs(aliases: Members<string>, model: string)
    ensures (exists i | 0 <= i < |aliases| :: aliases[i] == (model, Shown(aliases, model)))
            || (Shown(aliases, model) == model && forall i | 0 <= i < |aliases| :: aliases[i].0 != model)
  {
    if aliases != [] && aliases[0].0 != model {
      ShownIs(aliases[1..], model);
      assert forall i | 0 < i < |aliases| :: aliases[i] == aliases[1..][i - 1];
    } else if aliases != [] {
      assert aliases[0] == (model, Shown(aliases, model));
    }
  }

  lemma {:induction false} RenamesFrom(input: Members<string>, i: nat)
    requires i < |Renames(input)|
    ensures Names(input, Renames(input)[i].0)
  {
    hide Strip;
    var first := if Strip(input[0].1) == "" then [] else [(input[0].0, Strip(input[0].1))];
    if i < |first| {
      assert input[0].0 == Renames(input)[i].0;
    } else {
      RenamesFrom(input[1..], i - |first|);
      var j :| 0 <= j < |input[1..]| && input[1..][j].0 == Renames(input[1..])[i - |first|].0;
      assert input[j + 1].0 == Renames(input)[i].0;
    }
  }

  /** A request for `model` is let through and names a route or a catalog id. */
  predicate Leads(k: Key, catalog: seq<string>, model: string) {
    Permitted(k, Outside, model) && (model in RoutesRead(k.routes) || model in catalog)
  }

  /** No rename covers another visible id, unless the renamed model leads somewhere itself. */
  predicate Unshadowed(k: Key, catalog: seq<string>) {
    forall i | 0 <= i < |k.aliases| && Visible(k, catalog, k.aliases[i].1) && k.aliases[i].1 != k.aliases[i].0 ::
      Leads(k, catalog, k.aliases[i].0)
  }

  lemma VisibleLeads(k: Key, catalog: seq<string>, model: string)
    requires Visible(k, catalog, model)
    ensures Leads(k, catalog, model)
  {
    hide Strip, AllowedSet, RoutesRead;
  }

  /** Renames of accepted settings: distinct, never the name of another renamed model or of a route. */
  lemma AliasFacts(k: Key, allowed: seq<string>, aliasesIn: Members<string>, routesIn: Members<seq<string>>)
    requires Accepted(k, allowed, aliasesIn, routesIn)
    ensures DistinctAliases(k.aliases)
    ensures forall i, j | 0 <= i < |k.aliases| && 0 <= j < |k.aliases| && k.aliases[i].1 == k.aliases[j].0 ::
              k.aliases[i].0 == k.aliases[j].0
    ensures forall i | 0 <= i < |k.aliases| :: k.aliases[i].1 !in RoutesRead(k.routes)
  {
    hide Strip, RoutesFit, Stored, Renames, RoutesRead;
    forall i, j | 0 <= i < |k.aliases| && 0 <= j < |k.aliases| && k.aliases[i].1 == k.aliases[j].0
      ensures k.aliases[i].0 == k.aliases[j].0
    {
      RenamesFrom(aliasesIn, j);
      assert AliasFits(aliasesIn, allowed, k.aliases[i].0, k.aliases[i].1);
    }
    ReaderExact(k, allowed, aliasesIn, routesIn);
    assert routesIn[..|routesIn|] == routesIn;
    forall i | 0 <= i < |k.aliases| && k.aliases[i].1 in k.routes ensures false {
      StoredFacts(routesIn, TakenBy(allowed, aliasesIn), |routesIn|, k.aliases[i].1);
    }
  }

  /**
   * Accepted settings: every name `list_models` gives the key resolves to a
   * model it may call that is a route or in the catalog -- exactly when no
   * rename covers another visible id with a model that does not.
   */
  lemma ListedResolvesExactly(k: Key, allowed: seq<string>, aliasesIn: Members<string>, routesIn: Members<seq<string>>,
                              catalog: seq<string>)
    requires Accepted(k, allowed, aliasesIn, routesIn)
    ensures (forall name | Listed(k, catalog, name) ::
               var model := Resolve(k.aliases, name); Permitted(k, Outside, model) && (model in RoutesRead(k.routes) || model in catalog))
            <==> Unshadowed(k, catalog)
  {
    hide Permitted;
    AliasFacts(k, allowed, aliasesIn, routesIn);
    assert forall model :: Leads(k, catalog, model) <==>
             Permitted(k, Outside, model) && (model in RoutesRead(k.routes) || model in catalog);
    hide Strip, Accepted, Leads, Visible, Resolve, Shown, DistinctAliases, RoutesRead;
    if Unshadowed(k, catalog) {
      forall name | Listed(k, catalog, name) ensures Leads(k, catalog, Resolve(k.aliases, name)) {
        ListedLeads(k, catalog, name);
      }
    }
    if forall name | Listed(k, catalog, name) :: Leads(k, catalog, Resolve(k.aliases, name)) {
      forall i | 0 <= i < |k.aliases| && Visible(k, catalog, k.aliases[i].1) && k.aliases[i].1 != k.aliases[i].0
        ensures Leads(k, catalog, k.aliases[i].0)
      {
        ShownIs(k.aliases, k.aliases[i].1);
        ResolveIs(k.aliases, i);
        InCatalog(k, catalog, k.aliases[i].1);
        assert Listed(k, catalog, k.aliases[i].1);
      }
    }
  }

  lemma InCatalog(k: Key, catalog: seq<string>, model: string)
    requires Visible(k, catalog, model)
    ensures exists i | 0 <= i < |catalog| :: catalog[i] == model
  {
  }

  lemma ListedLeads(k: Key, catalog: seq<string>, name: string)
    requires DistinctAliases(k.aliases) && (forall i | 0 <= i < |k.aliases| :: k.aliases[i].1 !in RoutesRead(k.routes))
    requires Unshadowed(k, catalog) && Listed(k, catalog, name)
    ensures Leads(k, catalog, Resolve(k.aliases, name))
  {
    hide Strip, Visible, Resolve, Shown, DistinctAliases, RoutesRead, AllowedSet;
    ResolveMisses(k.aliases, name);
    if name !in RoutesRead(k.routes) {
      hide Leads;
      var i :| 0 <= i < |catalog| && Visible(k, catalog, catalog[i]) && Shown(k.aliases, catalog[i]) == name;
      ShownIs(k.aliases, catalog[i]);
      VisibleLeads(k, catalog, catalog[i]);
      if j :| 0 <= j < |k.aliases| && k.aliases[j] == (catalog[i], name) {
        ResolveIs(k.aliases, j);
      }
    }
  }

  // ----- candidates -----

  /** For every stored key: a route candidate that is no route itself is let through exactly inside its own clone. */
  lemma CandidateOnlyInside(k: Key, clone: Clone, model: string)
    requires Routed(RoutesRead(k.routes), model) && model !in RoutesRead(k.routes)
    ensures Permitted(k, clone, model) <==> clone == Inside(model)
  {
    hide RoutesRead, AllowedSet, Strip;
  }

  /** The clone for candidate `c` runs `c` itself, and is let through, exactly when no other model is renamed to `c`. */
  lemma CandidateRunsExactly(k: Key, name: string, c: string)
    requires name in RoutesRead(k.routes) && c in RoutesRead(k.routes)[name]
    requires DistinctAliases(k.aliases)
    ensures var model := Resolve(k.aliases, c);
            model == c && Permitted(k, Inside(c), model) <==>
            forall i | 0 <= i < |k.aliases| && k.aliases[i].1 == c :: k.aliases[i].0 == c
  {
    hide Resolve, RoutesRead, AllowedSet, Strip;
    ResolveMisses(k.aliases, c);
    forall i | 0 <= i < |k.aliases| && k.aliases[i].1 == c ensures Resolve(k.aliases, c) == k.aliases[i].0 {
      ResolveIs(k.aliases, i);
    }
    assert Routed(RoutesRead(k.routes), c);
  }

  // ----- routes that target routes -----

  /** No stored candidate is itself a stored route. */
  predicate Flat(stored: map<string, seq<string>>) {
    forall name | name in stored :: forall i | 0 <= i < |stored[name]| :: stored[name][i] !in stored
  }

  predicate Given(keys: seq<string>, routes: Members<seq<string>>) {
    |routes| == |keys| && forall i | 0 <= i < |keys| :: routes[i].0 == keys[i]
  }

  /** If two names strip to different routes, the first is also given without padding. */
  predicate Unpadded(keys: seq<string>) {
    forall i, j | 0 <= i < |keys| && 0 <= j < |keys| && Strip(keys[i]) != Strip(keys[j]) :: Strip(keys[i]) in keys
  }

  lemma {:induction false} StoredNames(routes: Members<seq<string>>, end: nat)
    requires end <= |routes|
    ensures forall i | 0 <= i < end :: Strip(routes[i].0) in Stored(routes[..end])
    decreases end
  {
    hide Strip, Deduped;
    if end > 0 {
      StoredNames(routes, end - 1);
      assert routes[..end][..end - 1] == routes[..end - 1];
    }
  }

  lemma UnpaddedNames(keys: seq<string>, routes: Members<seq<string>>, taken: Taken, name: string, c: string)
    requires Unpadded(keys) && Given(keys, routes) && RoutesFit(routes, taken, |routes|) && name in Stored(routes)
    ensures c in Stored(routes) && c != name ==> Names(routes, c)
  {
    hide Strip, Deduped, RouteName, Stored;
    assert routes[..|routes|] == routes;
    if c in Stored(routes) && c != name {
      StoredFacts(routes, taken, |routes|, name);
      StoredFacts(routes, taken, |routes|, c);
      var i :| 0 <= i < |routes| && name == Strip(routes[i].0);
      var j :| 0 <= j < |routes| && c == Strip(routes[j].0);
      assert Strip(keys[j]) != Strip(keys[i]);
      var m :| 0 <= m < |keys| && keys[m] == c;
      assert routes[m].0 == c;
    }
  }

  lemma UnpaddedFlat(keys: seq<string>, routes: Members<seq<string>>, taken: Taken)
    requires Unpadded(keys) && Given(keys, routes) && RoutesFit(routes, taken, |routes|)
    ensures Flat(Stored(routes))
  {
    hide Strip, Deduped, RouteName, Stored, Unpadded, Names;
    assert routes[..|routes|] == routes;
    var stored := Stored(routes);
    forall name, g | name in stored && 0 <= g < |stored[name]| ensures stored[name][g] !in stored {
      var c := stored[name][g];
      StoredFacts(routes, taken, |routes|, name);
      var i :| 0 <= i < |routes| && name == Strip(routes[i].0) && stored[name] == Deduped([], routes[i].1);
      NothingTidy();
      DedupedTidy([], routes[i].1);
      assert RouteFits(routes, taken, routes[i].0, routes[i].1);
      assert c in stored[name];
      var h :| 0 <= h < |routes[i].1| && Strip(routes[i].1[h]) == c;
      assert CandidateFits(routes, name, Strip(routes[i].1[h]));
      UnpaddedNames(keys, routes, taken, name, c);
    }
  }

  /** A model id too long for a route name. */
  const FAR: string := seq(150, _ => 'x')

  lemma FarBare()
    ensures Strip(FAR) == FAR && |FAR| == 150 && !RouteName(FAR)
  {
    StripBare(FAR);
  }

  lemma OneCandidate(c: string)
    requires Strip(c) == c && c != ""
    ensures Deduped([], [c]) == [c]
  {
    assert Deduped([c], []) == [c];
  }

  /** Names that are valid once stripped, and free. */
  predicate NamesFit(keys: seq<string>, taken: Taken) {
    forall i | 0 <= i < |keys| ::
      var n := Strip(keys[i]);
      RouteName(n) && n !in taken.renamed && n !in taken.aliases && n !in taken.allowed
  }

  lemma NamesGiven(keys: seq<string>, routes: Members<seq<string>>, c: string)
    requires Given(keys, routes)
    ensures Names(routes, c) <==> c in keys
  {
  }

  lemma PaddedTargets(keys: seq<string>, taken: Taken, i: nat, j: nat) returns (routes: Members<seq<string>>)
    requires NamesFit(keys, taken) && i < |keys| && j < |keys| && Strip(keys[i]) != Strip(keys[j]) && Strip(keys[i]) !in keys
    ensures Given(keys, routes) && RoutesFit(routes, taken, |routes|) && !Flat(Stored(routes))
  {
    hide Strip, RouteName, FAR, Deduped;
    var target, name := Strip(keys[i]), Strip(keys[j]);
    FarBare();
    StripBare(keys[i]);
    routes := seq(|keys|, m requires 0 <= m < |keys| => (keys[m], if Strip(keys[m]) == name then [target] else [FAR]));
    OneCandidate(FAR);
    RouteNameFacts(target);
    OneCandidate(target);
    forall m | 0 <= m < |routes| ensures RouteFits(routes, taken, routes[m].0, routes[m].1) {
      var c := routes[m].1[0];
      RouteNameFacts(Strip(keys[m]));
      NamesGiven(keys, routes, c);
      assert c in keys ==> RouteName(Strip(c));
      assert CandidatesFit(routes, Strip(keys[m]), routes[m].1);
    }
    assert routes[..|routes|] == routes;
    StoredNames(routes, |routes|);
    assert Strip(routes[i].0) in Stored(routes) && Strip(routes[j].0) in Stored(routes);
    StoredFacts(routes, taken, |routes|, name);
    assert Stored(routes)[name] == [target];
    assert Stored(routes)[name][0] in Stored(routes);
  }

  lemma RouteNameFacts(n: string)
    requires RouteName(n)
    ensures 1 <= |n| <= 100
  {
  }

  /** The validator accepts these routes. */
  predicate RoutesAccepted(routes: Members<seq<string>>, taken: Taken) {
    |routes| <= MAX_MODEL_ROUTES && RoutesFit(routes, taken, |routes|)
  }

  /**
   * Routes cannot target routes, whatever candidates are accepted for the
   * given names -- exactly when there are too many names to accept any, or no
   * padded name hides a route from the check, which compares candidates with
   * the names as they were typed.
   */
  lemma RoutesFlatExactly(keys: seq<string>, taken: Taken)
    requires NamesFit(keys, taken)
    ensures (forall routes | Given(keys, routes) && RoutesAccepted(routes, taken) :: Flat(Stored(routes))) <==>
            |keys| > MAX_MODEL_ROUTES || Unpadded(keys)
  {
    hide Strip, RouteName, Stored, RoutesFit, Flat, NamesFit;
    if Unpadded(keys) {
      forall routes | Given(keys, routes) && RoutesAccepted(routes, taken) ensures Flat(Stored(routes)) {
        UnpaddedFlat(keys, routes, taken);
      }
    } else if |keys| <= MAX_MODEL_ROUTES {
      var i, j :| 0 <= i < |keys| && 0 <= j < |keys| && Strip(keys[i]) != Strip(keys[j]) && Strip(keys[i]) !in keys;
      var routes := PaddedTargets(keys, taken, i, j);
      assert Given(keys, routes) && RoutesAccepted(routes, taken) && !Flat(Stored(routes));
    }
  }

  const PADDED: Members<seq<string>> := [(" a", ["far"]), ("b", ["a"])]

  /** Accepted routes with a route among the candidates: " a" is stored as "a", which "b" targets. */
  lemma PaddedExample()
    ensures var taken := Taken({}, {}, {});
            && UniqueNames(PADDED) && RoutesAccepted(PADDED, taken)
            && Stored(PADDED) == map["a" := ["far"], "b" := ["a"]] && !Flat(Stored(PADDED))
  {
    PaddedNames();
    hide Strip, RouteName;
    OneCandidate("far");
    OneCandidate("a");
    hide Deduped;
    assert PADDED[0] == (" a", ["far"]) && PADDED[1] == ("b", ["a"]);
    var stored := Stored(PADDED);
    assert Stored(PADDED[..1][..0]) == map[] && PADDED[..1][0] == PADDED[0];
    assert Stored(PADDED[..1]) == map["a" := ["far"]];
    assert stored == map["a" := ["far"], "b" := ["a"]];
    assert stored["b"][0] == "a";
  }

  lemma PaddedNames()
    ensures Strip(" a") == "a" && Strip("a") == "a" && Strip("b") == "b" && Strip("far") == "far" && RouteName("a") && RouteName("b")
  {
    BareName("a");
    BareName("b");
    StripBare("far");
    assert " a"[1..] == "a";
  }

  lemma BareName(s: string)
    requires |s| == 1 && Alphanumeric(s[0])
    ensures Strip(s) == s && RouteName(s)
  {
    StripBare(s);
  }

  // ----- the allowlist -----

  lemma {:induction false} SplitComma(a: string, rest: string)
    requires ',' !in a
    ensures Split(a) == [a] && Split(a + "," + rest) == [a] + Split(rest)
  {
    if a == "" {
      assert a + "," + rest == "," + rest && ("," + rest)[1..] == rest;
    } else {
      SplitComma(a[1..], rest);
      assert (a + "," + rest)[1..] == a[1..] + "," + rest;
      assert [a[0]] + a[1..] == a;
    }
  }

  lemma {:induction false} SplitJoin(names: seq<string>)
    requires names != [] && forall i | 0 <= i < |names| :: ',' !in names[i]
    ensures Split(Join(names)) == names
  {
    SplitComma(names[0], if |names| == 1 then "" else Join(names[1..]));
    if |names| > 1 {
      assert forall i | 0 <= i < |names[1..]| :: names[1..][i] == names[i + 1];
      SplitJoin(names[1..]);
    }
  }

  lemma {:induction false} NoCommaLeft(s: string)
    ensures forall i | 0 <= i < |Split(s)| :: ',' !in Split(s)[i]
  {
    if s != "" {
      NoCommaLeft(s[1..]);
    }
  }

  lemma {:induction false} JoinBare(names: seq<string>)
    requires names != [] && forall i | 0 <= i < |names| :: Bare(names[i]) && names[i] != ""
    ensures var s := Join(names); s != "" && s[0] == names[0][0] && Bare(s)
  {
    if |names| > 1 {
      assert forall i | 0 <= i < |names[1..]| :: names[1..][i] == names[i + 1];
      JoinBare(names[1..]);
    }
  }

  lemma StripWithin(s: string, c: char)
    ensures c !in s ==> c !in Strip(s)
  {
    TrimLeftWithin(s, c);
    TrimRightBare(TrimLeft(s));
  }

  lemma {:induction false} TrimLeftWithin(s: string, c: char)
    ensures c !in s ==> c !in TrimLeft(s)
  {
    if s != "" { TrimLeftWithin(s[1..], c); }
  }

  /** Stored comma-separated, the allowlist reads back as the same set exactly when no allowed model has a comma in its name. */
  lemma AllowlistExactly(allowed: seq<string>)
    requires forall i | 0 <= i < |allowed| :: Bare(allowed[i]) && allowed[i] != ""
    ensures AllowedSet(Strip(Join(allowed))) == (set m | m in allowed) <==> forall i | 0 <= i < |allowed| :: ',' !in allowed[i]
  {
    hide Strip, Split;
    if allowed == [] {
      EmptyList();
    } else {
      JoinBare(allowed);
      var raw := Join(allowed);
      StripBare(raw);
      if forall i | 0 <= i < |allowed| :: ',' !in allowed[i] {
        SplitJoin(allowed);
        forall i | 0 <= i < |allowed| ensures Strip(allowed[i]) == allowed[i] { StripBare(allowed[i]); }
      } else {
        var i :| 0 <= i < |allowed| && ',' in allowed[i];
        NoCommaLeft(raw);
        forall j | 0 <= j < |Split(raw)| ensures ',' !in Strip(Split(raw)[j]) { StripWithin(Split(raw)[j], ','); }
        assert allowed[i] in (set m | m in allowed) && allowed[i] !in AllowedSet(raw);
      }
    }
  }

  lemma EmptyList()
    ensures AllowedSet(Strip(Join([]))) == {}
  {
    StripBare("");
    assert Split("") == [""];
  }

  // ----- what a key may call -----

  lemma StoredFrom(routes: Members<seq<string>>, end: nat, name: string)
    requires end <= |routes|
    ensures name in Stored(routes[..end]) <==> exists i | 0 <= i < end :: name == Strip(routes[i].0)
    decreases end
  {
    hide Strip, Deduped;
    if end > 0 {
      StoredFrom(routes, end - 1, name);
      assert routes[..end][..end - 1] == routes[..end - 1];
    }
  }

  /** A name that is one of the given routes, once stripped. */
  predicate IsRoute(routesIn: Members<seq<string>>, model: string) {
    exists i | 0 <= i < |routesIn| :: model == Strip(routesIn[i].0)
  }

  /**
   * For accepted settings whose allowed models have no comma: a request goes
   * through for a route name; for a route candidate only inside the clone made
   * for it; for any other model when it is on the list or there is no list.
   */
  lemma PermittedExactly(k: Key, allowed: seq<string>, aliasesIn: Members<string>, routesIn: Members<seq<string>>,
                         clone: Clone, model: string)
    requires Accepted(k, allowed, aliasesIn, routesIn) && forall i | 0 <= i < |allowed| :: ',' !in allowed[i]
    ensures Permitted(k, clone, model) <==>
            IsRoute(routesIn, model)
            || (if exists name | name in k.routes :: model in k.routes[name] then clone == Inside(model)
                else allowed == [] || model in allowed)
  {
    hide Strip, Accepted, RoutesRead, Stored, AllowedSet, Join;
    ReaderExact(k, allowed, aliasesIn, routesIn);
    AsStored(k, allowed, aliasesIn, routesIn);
    StoredFrom(routesIn, |routesIn|, model);
    assert routesIn[..|routesIn|] == routesIn;
    AllowlistExactly(allowed);
    ListEmpty(allowed);
  }

  lemma AsStored(k: Key, allowed: seq<string>, aliasesIn: Members<string>, routesIn: Members<seq<string>>)
    requires Accepted(k, allowed, aliasesIn, routesIn)
    ensures k.allowed == Join(allowed) && k.routes == Stored(routesIn)
    ensures forall i | 0 <= i < |allowed| :: Bare(allowed[i]) && allowed[i] != ""
  {
    hide Bare, AliasesFit, RoutesFit;
  }

  lemma ListEmpty(allowed: seq<string>)
    requires forall i | 0 <= i < |allowed| :: Bare(allowed[i]) && allowed[i] != ""
    ensures Strip(Join(allowed)) == "" <==> allowed == []
  {
    hide Strip;
    if allowed == [] {
      StripBare("");
    } else {
      JoinBare(allowed);
      StripBare(Join(allowed));
    }
  }

  // ----- settings that are accepted and still lead astray -----

  lemma PlainNames()
    ensures Strip("a") == "a" && Strip("b") == "b" && Strip("r") == "r" && Bare("a") && Bare("b")
  {
    StripBare("a");
    StripBare("b");
    StripBare("r");
  }

  /** The model "a" renamed to "b", and one route "r" to a single candidate. */
  function Renaming(candidate: string): Key {
    Key(Join(["a", "b"]), [("a", "b")], map["r" := [candidate]])
  }

  lemma RenamingAccepted(candidate: string)
    requires candidate in {"a", "b"}
    ensures Accepted(Renaming(candidate), ["a", "b"], [("a", "b")], [("r", [candidate])])
  {
    PlainNames();
    hide Strip, Join;
    var allowed, aliasesIn, routesIn := ["a", "b"], [("a", "b")], [("r", [candidate])];
    assert Renames(aliasesIn) == aliasesIn by { assert Renames([]) == []; }
    OneCandidate(candidate);
    var taken := TakenBy(allowed, aliasesIn);
    assert taken.renamed == {"a"} && taken.aliases == {"b"} && taken.allowed == {"a", "b"} by {
      assert aliasesIn[0] == ("a", "b") && allowed[0] == "a" && allowed[1] == "b";
    }
    assert RouteName("r");
    assert Stored(routesIn) == map["r" := [candidate]] by { assert Stored(routesIn[..0]) == map[]; }
  }

  lemma RenamingReads(candidate: string)
    requires candidate in {"a", "b"}
    ensures var k := Renaming(candidate);
            && RoutesRead(k.routes) == k.routes && AllowedSet(Strip(k.allowed)) == {"a", "b"} && Strip(k.allowed) != ""
  {
    hide Accepted, Strip, Split, Bare, RoutesRead;
    var allowed := ["a", "b"];
    RenamingAccepted(candidate);
    ReaderExact(Renaming(candidate), allowed, [("a", "b")], [("r", [candidate])]);
    PlainNames();
    AllowlistExactly(allowed);
    assert AllowedSet(Strip(Join(allowed))) == {"a", "b"} by { assert allowed[0] == "a" && allowed[1] == "b"; }
    JoinBare(allowed);
    StripBare(Join(allowed));
  }

  /**
   * With the route on "a", list_models names "b", which resolves to "a", a
   * model this key may not call: accepted settings do reach the failing side
   * of ListedResolvesExactly.
   */
  lemma ListedAstray()
    ensures var k, catalog := Renaming("a"), ["a", "b"];
            && Accepted(k, ["a", "b"], [("a", "b")], [("r", ["a"])])
            && Listed(k, catalog, "b") && Resolve(k.aliases, "b") == "a" && !Permitted(k, Outside, "a")
            && !Unshadowed(k, catalog)
  {
    hide Strip, Join, AllowedSet, RoutesRead, Accepted;
    var k, catalog := Renaming("a"), ["a", "b"];
    RenamingAccepted("a");
    RenamingReads("a");
    assert k.routes["r"] == ["a"] && "a" in k.routes["r"];
    assert Routed(k.routes, "a") && !Routed(k.routes, "b");
    assert Shown(k.aliases, "b") == "b" by { assert k.aliases[1..] == []; }
    assert catalog[1] == "b" && Visible(k, catalog, "b");
    assert k.aliases[0] == ("a", "b");
  }

  /**
   * With the route on "b", the clone made for the candidate "b" runs "a"
   * instead: accepted settings do reach the failing side of
   * CandidateRunsExactly.
   */
  lemma CandidateAstray()
    ensures var k := Renaming("b");
            && Accepted(k, ["a", "b"], [("a", "b")], [("r", ["b"])])
            && "b" in RoutesRead(k.routes)["r"] && Resolve(k.aliases, "b") == "a"
  {
    hide Strip, Join, AllowedSet, RoutesRead, Accepted;
    RenamingAccepted("b");
    RenamingReads("b");
    assert Renaming("b").routes["r"] == ["b"];
  }
}
