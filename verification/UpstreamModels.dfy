/**
 Reconciling a channel's model list with its upstream (controller/channel_upstream_update.go):
 name-list algebra, detection of pending changes, and applying them to the stored channel.
*/
module UpstreamModels {
  import opened GoStrings
  import opened Options

  type Names = seq<string>

  /** The regular-expression engine: does the expression match the name? */
  type Matcher = (string, string) -> bool

  // ----- Name lists

  /** lo.Filter */
  function Filter(xs: Names, keep: string -> bool): (r: Names)
    ensures forall x :: x in r <==> x in xs && keep(x)
  {
    if xs == [] then []
    else
      var n := |xs| - 1;
      assert xs == xs[..n] + [xs[n]];
      Filter(xs[..n], keep) + if keep(xs[n]) then [xs[n]] else []
  }

  /** normalizeModelNames: trimmed, not blank, the first of equal names. */
  function Normalize(models: Names): Names {
    if models == [] then []
    else
      var n := |models| - 1;
      var before, name := Normalize(models[..n]), TrimSpace(models[n]);
      if name == "" || name in before then before else before + [name]
  }

  /** What every normalized list is. */
  predicate Clean(xs: Names) {
    && (forall x :: x in xs ==> x != "" && IsTrimmed(x, SPACES))
    && (forall i, j :: 0 <= i < j < |xs| ==> xs[i] != xs[j])
  }

  function Merge(base: Names, appended: Names): Names {
    var merged := Normalize(base);
    merged + Filter(Normalize(appended), x => x !in merged)
  }

  function Subtract(base: Names, removed: Names): Names {
    var drop := Normalize(removed);
    Filter(Normalize(base), x => x !in drop)
  }

  function Intersect(base: Names, allowed: Names): Names {
    var keep := Normalize(allowed);
    Filter(Normalize(base), x => x in keep)
  }

  /** applySelectedModelChanges, in one formula: removals first, then the additions that are new. */
  function ApplySelected(origin: Names, add: Names, remove: Names): Names {
    var o, a, r := Normalize(origin), Normalize(add), Normalize(remove);
    Filter(o, x => x in a || x !in r) + Filter(a, x => x !in o)
  }

  lemma {:induction false} NormalizeIsClean(models: Names)
    ensures Clean(Normalize(models))
    ensures forall x :: x in Normalize(models) ==> exists i :: 0 <= i < |models| && TrimSpace(models[i]) == x
  {
    if models != [] {
      var n := |models| - 1;
      NormalizeIsClean(models[..n]);
      TrimIsTrimmed(models[n], SPACES);
      forall x | x in Normalize(models)
        ensures exists i :: 0 <= i < |models| && TrimSpace(models[i]) == x
      {
        if x in Normalize(models[..n]) {
          var i :| 0 <= i < n && TrimSpace(models[..n][i]) == x;
          assert models[i] == models[..n][i];
        }
      }
    }
  }

  /** `x` is in the list, up to white space around it, and not blank. */
  predicate Named(xs: Names, x: string) {
    x != "" && exists i :: 0 <= i < |xs| && TrimSpace(xs[i]) == x
  }

  /** Normalizing loses no name, adds none, and keeps their order: what the first models give comes first. */
  lemma {:induction false} NormalizeMeans(models: Names)
    ensures forall x :: x in Normalize(models) <==> Named(models, x)
    ensures forall m :: 0 <= m <= |models| ==> Normalize(models[..m]) <= Normalize(models)
  {
    assert models[..|models|] == models;
    if models != [] {
      var n := |models| - 1;
      NormalizeMeans(models[..n]);
      assert forall m :: 0 <= m <= n ==> models[..n][..m] == models[..m];
      forall x
        ensures Named(models, x) <==> Named(models[..n], x) || (x != "" && x == TrimSpace(models[n]))
      {
        NamedNext(models, x);
      }
    }
  }

  lemma NamedNext(models: Names, x: string)
    requires models != []
    ensures var n := |models| - 1;
      Named(models, x) <==> Named(models[..n], x) || (x != "" && x == TrimSpace(models[n]))
  {
    var n := |models| - 1;
    assert forall i :: 0 <= i < n ==> models[..n][i] == models[i];
  }

  lemma {:induction false} FilterStartsWith(xs: Names, ys: Names, keep: string -> bool)
    requires xs <= ys
    ensures Filter(xs, keep) <= Filter(ys, keep)
    decreases |ys|
  {
    if |xs| < |ys| {
      FilterStartsWith(xs, ys[..|ys| - 1], keep);
    } else {
      assert xs == ys;
    }
  }

  lemma {:induction false} CleanIsNormal(xs: Names)
    requires Clean(xs)
    ensures Normalize(xs) == xs
  {
    if xs != [] {
      var n := |xs| - 1;
      assert xs[n] in xs && forall x :: x in xs[..n] ==> x in xs;
      CleanIsNormal(xs[..n]);
      TrimmedIsKept(xs[n], SPACES);
      assert xs == xs[..n] + [xs[n]];
    }
  }

  lemma {:induction false} FilterIsClean(xs: Names, keep: string -> bool)
    requires Clean(xs)
    ensures Clean(Filter(xs, keep))
  {
    if xs != [] {
      var n := |xs| - 1;
      assert forall x :: x in xs[..n] ==> x in xs;
      FilterIsClean(xs[..n], keep);
      assert xs[n] !in xs[..n];
      assert xs[n] in xs;
    }
  }

  lemma {:induction false} FilterSame(xs: Names, p: string -> bool, q: string -> bool)
    requires forall x :: x in xs ==> p(x) == q(x)
    ensures Filter(xs, p) == Filter(xs, q)
  {
    if xs != [] {
      var n := |xs| - 1;
      var before, last := xs[..n], xs[n];
      assert last in xs && p(last) == q(last);
      forall x | x in before
        ensures p(x) == q(x)
      {
        assert x in xs;
      }
      FilterSame(before, p, q);
    }
  }

  lemma {:induction false} FilterAll(xs: Names, p: string -> bool)
    requires forall x :: x in xs ==> p(x)
    ensures Filter(xs, p) == xs
  {
    if xs != [] {
      var before, last := xs[..|xs| - 1], xs[|xs| - 1];
      assert last in xs && p(last);
      forall x | x in before
        ensures p(x)
      {
        assert x in xs;
      }
      FilterAll(before, p);
      FilterOneMore(xs, before, last, p);
      assert before + [last] == xs;
    }
  }

  lemma {:induction false} FilterFilter(xs: Names, p: string -> bool, q: string -> bool)
    ensures Filter(Filter(xs, p), q) == Filter(xs, x => p(x) && q(x))
  {
    if xs != [] {
      var n := |xs| - 1;
      FilterFilter(xs[..n], p, q);
      var f := Filter(xs[..n], p);
      assert (f + [xs[n]])[..|f|] == f;
      assert f + [] == f;
    }
  }

  lemma {:induction false} FilterConcat(xs: Names, ys: Names, p: string -> bool)
    ensures Filter(xs + ys, p) == Filter(xs, p) + Filter(ys, p)
  {
    if ys == [] {
      assert xs + ys == xs;
    } else {
      var before, last := ys[..|ys| - 1], ys[|ys| - 1];
      FilterConcat(xs, before, p);
      FilterOneMore(xs + ys, xs + before, last, p);
      FilterOneMore(ys, before, last, p);
    }
  }

  lemma FilterOneMore(xs: Names, before: Names, last: string, p: string -> bool)
    requires |xs| == |before| + 1 && xs[..|before|] == before && xs[|before|] == last
    ensures Filter(xs, p) == Filter(before, p) + if p(last) then [last] else []
  {
  }

  lemma MergeIsClean(base: Names, appended: Names)
    ensures Clean(Merge(base, appended))
    ensures forall x :: x in Merge(base, appended) <==> x in Normalize(base) || x in Normalize(appended)
  {
    var merged, more := Normalize(base), Normalize(appended);
    NormalizeIsClean(base);
    NormalizeIsClean(appended);
    FilterIsClean(more, x => x !in merged);
    CleanConcat(merged, Filter(more, x => x !in merged));
  }

  lemma CleanConcat(xs: Names, ys: Names)
    requires Clean(xs) && Clean(ys) && forall y :: y in ys ==> y !in xs
    ensures Clean(xs + ys)
  {
    var all := xs + ys;
    forall i, j | 0 <= i < j < |all|
      ensures all[i] != all[j]
    {
      if i < |xs| <= j {
        assert all[j] == ys[j - |xs|] && all[j] in ys && all[i] in xs;
      }
    }
  }

  // ----- The list functions as the source computes them, with their lookup sets

  method NameSet(xs: Names) returns (s: set<string>)
    ensures forall x :: x in s <==> x in xs
  {
    s := {};
    for i := 0 to |xs|
      invariant forall x :: x in s <==> x in xs[..i]
    {
      assert xs[..i + 1] == xs[..i] + [xs[i]];
      s := s + {xs[i]};
    }
    assert xs[..|xs|] == xs;
  }

  lemma NotEarlier(xs: Names, i: nat)
    requires Clean(xs) && i < |xs|
    ensures xs[i] !in xs[..i]
  {
  }

  method MergeModelNames(base: Names, appended: Names) returns (merged: Names)
    ensures merged == Merge(base, appended)
  {
    merged := Normalize(base);
    ghost var start := merged;
    ghost var isNew := (x: string) => x !in start;
    var seen := NameSet(merged);
    var more := Normalize(appended);
    NormalizeIsClean(appended);
    for i := 0 to |more|
      invariant merged == start + Filter(more[..i], isNew)
      invariant forall x :: x in seen <==> x in merged
    {
      FilterOneMore(more[..i + 1], more[..i], more[i], isNew);
      NotEarlier(more, i);
      assert more[i] in seen <==> !isNew(more[i]);
      if more[i] !in seen {
        seen := seen + {more[i]};
        merged := merged + [more[i]];
      }
    }
    assert more[..|more|] == more;
    FilterSame(more, isNew, x => x !in start);
  }

  method SubtractModelNames(base: Names, removed: Names) returns (r: Names)
    ensures r == Subtract(base, removed)
  {
    var removeSet := NameSet(Normalize(removed));
    r := Filter(Normalize(base), x => x !in removeSet);
    FilterSame(Normalize(base), x => x !in removeSet, x => x !in Normalize(removed));
    var drop := Normalize(removed);
    FilterSame(Normalize(base), x => x !in removeSet, x => x !in drop);
  }

  method IntersectModelNames(base: Names, allowed: Names) returns (r: Names)
    ensures r == Intersect(base, allowed)
  {
    var allowedSet := NameSet(Normalize(allowed));
    r := Filter(Normalize(base), x => x in allowedSet);
    var keep := Normalize(allowed);
    FilterSame(Normalize(base), x => x in allowedSet, x => x in keep);
  }

  /** Add wins when a name is in both selections. */
  method ApplySelectedModelChanges(origin: Names, add: Names, remove: Names) returns (r: Names)
    ensures r == ApplySelected(origin, add, remove)
  {
    var normalizedAdd := Normalize(add);
    var normalizedRemove := SubtractModelNames(Normalize(remove), normalizedAdd);
    var merged := MergeModelNames(origin, normalizedAdd);
    r := SubtractModelNames(merged, normalizedRemove);
    AppliedInOneFormula(origin, add, remove);
  }

  lemma AppliedInOneFormula(origin: Names, add: Names, remove: Names)
    ensures var a := Normalize(add);
            Subtract(Merge(origin, a), Subtract(Normalize(remove), a)) == ApplySelected(origin, add, remove)
  {
    var o, a, r := Normalize(origin), Normalize(add), Normalize(remove);
    NormalizeIsClean(add);
    NormalizeIsClean(remove);
    CleanIsNormal(a);
    CleanIsNormal(r);
    FilterIsClean(r, x => x !in a);
    var drop := Subtract(r, a);
    CleanIsNormal(drop);
    MergeIsClean(origin, a);
    CleanIsNormal(Merge(origin, a));
    var fresh' := Filter(a, x => x !in o);
    FilterConcat(o, fresh', x => x !in drop);
    FilterSame(o, x => x !in drop, x => x in a || x !in r);
    FilterAll(fresh', x => x !in drop);
  }

  // ----- Detecting pending changes

  type Mapping = map<string, string>  // a channel's redirects, alias to upstream model

  const REGEX_PREFIX := "regex:"

  /** One ignore rule; `matches` is the regular-expression matcher (false on a bad expression). */
  predicate RuleMatches(rule: string, name: string, matches: Matcher) {
    if REGEX_PREFIX <= rule then matches(TrimSpace(rule[|REGEX_PREFIX|..]), name) else rule == name
  }

  predicate Ignored(rules: Names, name: string, matches: Matcher) {
    exists i :: 0 <= i < |rules| && RuleMatches(rules[i], name, matches)
  }

  datatype Pending = Pending(add: Names, remove: Names)

  /**
   An upstream model is missing if nothing covers or ignores it; a local one is stale if it is no
   alias and gone upstream.
  */
  function Detect(local: Names, upstream: Names, ignored: Names, mapping: Mapping, matches: Matcher): Pending {
    var l, u, rules := Normalize(local), Normalize(upstream), Normalize(ignored);
    Pending(
      Filter(u, x => x !in l && x !in mapping.Values && !Ignored(rules, x, matches)),
      Filter(l, x => x !in mapping.Keys && x !in u))
  }

  /** collectPendingUpstreamModelChangesFromModels */
  method CollectPending(local: Names, upstream: Names, ignored: Names, mapping: Mapping, matches: Matcher)
    returns (p: Pending)
    ensures p == Detect(local, upstream, ignored, mapping, matches)
  {
    var l, u, rules := Normalize(local), Normalize(upstream), Normalize(ignored);
    var localSet := NameSet(l);
    var upstreamSet := NameSet(u);
    var sources: set<string>, targets: set<string> := {}, {};
    var items := mapping.Items;
    while items != {}
      invariant items <= mapping.Items
      invariant forall x :: x in sources ==> x in mapping.Keys
      invariant forall x :: x in targets ==> x in mapping.Values
      invariant forall it :: it in mapping.Items && it !in items ==> it.0 in sources && it.1 in targets
      decreases |items|
    {
      var item :| item in items;
      sources, targets := sources + {item.0}, targets + {item.1};
      items := items - {item};
    }
    EveryItem(mapping, sources, targets);
    var covered := localSet + targets;
    var pendingAdd := Filter(u, x => x !in covered && !Ignored(rules, x, matches));
    var pendingRemove := Filter(l, x => x !in sources && x !in upstreamSet);
    FilterSame(u, x => x !in covered && !Ignored(rules, x, matches),
      x => x !in l && x !in mapping.Values && !Ignored(rules, x, matches));
    FilterSame(l, x => x !in sources && x !in upstreamSet, x => x !in mapping.Keys && x !in u);
    DetectIsClean(local, upstream, ignored, mapping, matches);
    CleanIsNormal(pendingAdd);
    CleanIsNormal(pendingRemove);
    p := Pending(Normalize(pendingAdd), Normalize(pendingRemove));
  }

  lemma EveryItem(mapping: Mapping, sources: set<string>, targets: set<string>)
    requires sources <= mapping.Keys && targets <= mapping.Values
    requires forall it :: it in mapping.Items ==> it.0 in sources && it.1 in targets
    ensures sources == mapping.Keys && targets == mapping.Values
  {
    forall k | k in mapping.Keys
      ensures k in sources && mapping[k] in targets
    {
      assert (k, mapping[k]) in mapping.Items;
    }
  }

  lemma DetectIsClean(local: Names, upstream: Names, ignored: Names, mapping: Mapping, matches: Matcher)
    ensures var p := Detect(local, upstream, ignored, mapping, matches); Clean(p.add) && Clean(p.remove)
  {
    var l, u, rules := Normalize(local), Normalize(upstream), Normalize(ignored);
    NormalizeIsClean(local);
    NormalizeIsClean(upstream);
    FilterIsClean(u, x => x !in l && x !in mapping.Values && !Ignored(rules, x, matches));
    FilterIsClean(l, x => x !in mapping.Keys && x !in u);
  }

  /** The rule is an expression behind regex: that matches the name, or it is the name. */
  predicate Keeps(rule: string, x: string, matches: Matcher) {
    if |rule| >= 6 && rule[..6] == "regex:" then matches(TrimSpace(rule[6..]), x) else rule == x
  }

  predicate KeptOut(ignored: Names, x: string, matches: Matcher) {
    exists rule :: rule in Normalize(ignored) && Keeps(rule, x, matches)
  }

  lemma KeptOutIff(ignored: Names, x: string, matches: Matcher)
    ensures Ignored(Normalize(ignored), x, matches) <==> KeptOut(ignored, x, matches)
  {
    var rules := Normalize(ignored);
    if Ignored(rules, x, matches) {
      var i :| 0 <= i < |rules| && RuleMatches(rules[i], x, matches);
      assert rules[i] in Normalize(ignored) && Keeps(rules[i], x, matches);
    }
    if KeptOut(ignored, x, matches) {
      var rule :| rule in rules && Keeps(rule, x, matches);
      var i :| 0 <= i < |rules| && rules[i] == rule;
    }
  }

  /**
   What a check finds, in terms of the lists as they are given: the upstream names that are neither a
   local name nor the target of a redirect nor kept out by a rule, and the local names that are
   neither the source of a redirect nor offered upstream.
  */
  lemma PendingIs(local: Names, upstream: Names, ignored: Names, mapping: Mapping, matches: Matcher)
    ensures var p := Detect(local, upstream, ignored, mapping, matches);
      && (forall x :: x in p.add <==>
            Named(upstream, x) && !Named(local, x) && (forall alias :: alias in mapping ==> mapping[alias] != x)
            && !KeptOut(ignored, x, matches))
      && (forall x :: x in p.remove <==> Named(local, x) && x !in mapping && !Named(upstream, x))
  {
    NormalizeMeans(local);
    NormalizeMeans(upstream);
    forall x
      ensures Ignored(Normalize(ignored), x, matches) <==> KeptOut(ignored, x, matches)
    {
      KeptOutIff(ignored, x, matches);
    }
  }

  /** Missing models come in the order of the upstream list, stale ones in that of the local list. */
  lemma PendingInOrder(local: Names, upstream: Names, ignored: Names, mapping: Mapping, matches: Matcher, m: nat)
    ensures m <= |upstream| ==>
      Detect(local, upstream[..m], ignored, mapping, matches).add
        <= Detect(local, upstream, ignored, mapping, matches).add
    ensures m <= |local| ==>
      Detect(local[..m], upstream, ignored, mapping, matches).remove
        <= Detect(local, upstream, ignored, mapping, matches).remove
  {
    NormalizeMeans(local);
    NormalizeMeans(upstream);
    var l, u, rules := Normalize(local), Normalize(upstream), Normalize(ignored);
    if m <= |upstream| {
      FilterStartsWith(Normalize(upstream[..m]), u,
                       x => x !in l && x !in mapping.Values && !Ignored(rules, x, matches));
    }
    if m <= |local| {
      FilterStartsWith(Normalize(local[..m]), l, x => x !in mapping.Keys && x !in u);
    }
  }

  // ----- The stored channel

  /** Channel.GetModels: the model list is stored as one comma-separated text. */
  function GetModels(text: string): Names {
    if text == "" then [] else Split(Trim(text, {','}), ',')
  }

  /** The models of a text, joined again, are the text without the commas around it. */
  lemma GetModelsJoins(text: string)
    ensures Join(GetModels(text), ',') == Trim(text, {','}) && forall x :: x in GetModels(text) ==> ',' !in x
  {
    JoinSplit(Trim(text, {','}), ',');
  }

  /** The model text and the upstream-update settings of a channel. */
  datatype Record = Record(
    models: string, ignored: Names, detected: Names, removed: Names, autoSync: bool, lastCheck: int)

  function Origin(s: Record): Names {
    Normalize(GetModels(s.models))
  }

  /** A check whose fetch succeeded, with `p` pending. */
  function Checked(s: Record, p: Pending, allowAutoApply: bool, now: int): Record {
    var auto := allowAutoApply && s.autoSync && |p.add| > 0;
    var merged := Merge(Origin(s), p.add);
    s.(lastCheck := now, removed := p.remove,
       detected := if auto then [] else p.add,
       models := if auto && |merged| > |Origin(s)| then Join(merged, ',') else s.models)
  }

  /** The parts of an administrator's selection that are really pending; add wins over remove. */
  function Selection(s: Record, add: Names, ignore: Names, remove: Names): (Names, Names, Names) {
    var a := Intersect(add, Normalize(s.detected));
    (a, Intersect(ignore, Normalize(s.detected)), Subtract(Intersect(remove, Normalize(s.removed)), a))
  }

  function Applied(s: Record, add: Names, ignore: Names, remove: Names, now: int): Record {
    var (a, i, r) := Selection(s, add, ignore, remove);
    AppliedSelection(s, a, i, r, now)
  }

  function AppliedSelection(s: Record, a: Names, i: Names, r: Names, now: int): Record {
    var next := ApplySelected(Origin(s), a, r);
    var rules := Merge(s.ignored, i);
    s.(models := if Origin(s) != next then Join(next, ',') else s.models,
       ignored := if |a| > 0 then Subtract(rules, a) else rules,
       detected := Subtract(Normalize(s.detected), a + i),
       removed := Subtract(Normalize(s.removed), r),
       lastCheck := now)
  }

  class Channel {
    var models: string
    var ignored: Names
    var detected: Names
    var removed: Names
    var autoSync: bool
    var lastCheck: int

    ghost function State(): Record
      reads this
    {
      Record(models, ignored, detected, removed, autoSync, lastCheck)
    }

    constructor (s: Record)
      ensures State() == s
    {
      models, ignored, detected, removed := s.models, s.ignored, s.detected, s.removed;
      autoSync, lastCheck := s.autoSync, s.lastCheck;
    }

    /**
     checkAndPersistChannelUpstreamModelUpdates; `upstream` is the fetched list, None if the fetch
     failed. Automatic additions are exactly the pending ones.
    */
    method CheckUpdates(upstream: Option<Names>, mapping: Mapping, matches: Matcher,
                        force: bool, allowAutoApply: bool, minInterval: int, now: int)
      returns (changed: bool, autoAdded: nat, ok: bool)
      modifies this
      ensures var s := old(State());
              if !force && s.lastCheck > 0 && now - s.lastCheck < minInterval then
                State() == s && !changed && autoAdded == 0 && ok
              else if upstream.None? then
                State() == s.(lastCheck := now) && !changed && autoAdded == 0 && !ok
              else
                var p := Detect(GetModels(s.models), upstream.value, s.ignored, mapping, matches);
                && State() == Checked(s, p, allowAutoApply, now) && ok
                && autoAdded == (if allowAutoApply && s.autoSync then |p.add| else 0)
                && changed == (autoAdded > 0)
    {
      if !force {
        if lastCheck > 0 && now - lastCheck < minInterval {
          return false, 0, true;
        }
      }
      lastCheck := now;
      if upstream.None? {
        return false, 0, false;
      }
      var p := CollectPending(GetModels(models), upstream.value, ignored, mapping, matches);
      AllAddsAreNew(GetModels(models), upstream.value, ignored, mapping, matches);
      changed, autoAdded := Settle(p, allowAutoApply);
      ok := true;
    }

    /** Add what is pending if that is wanted, and remember the rest. */
    method Settle(p: Pending, allowAutoApply: bool) returns (changed: bool, autoAdded: nat)
      requires Merge(Origin(State()), p.add) == Origin(State()) + p.add
      modifies this
      ensures State() == Checked(old(State()), p, allowAutoApply, old(lastCheck))
      ensures autoAdded == (if allowAutoApply && old(autoSync) then |p.add| else 0) && changed == (autoAdded > 0)
    {
      changed, autoAdded := false, 0;
      if allowAutoApply && autoSync && |p.add| > 0 {
        var origin := Normalize(GetModels(models));
        var merged := MergeModelNames(origin, p.add);
        MergeNormal(GetModels(models), p.add);
        if |merged| > |origin| {
          models := Join(merged, ',');
          autoAdded := |merged| - |origin|;
          changed := true;
        }
        detected := [];
      } else {
        detected := p.add;
      }
      removed := p.remove;
    }

    /** applyChannelUpstreamModelUpdates */
    method ApplyUpdates(add: Names, ignore: Names, remove: Names, now: int)
      returns (added: Names, gone: Names, remaining: Names, remainingRemove: Names, changed: bool)
      modifies this
      ensures var s := old(State());
              var (a, i, r) := Selection(s, add, ignore, remove);
              && added == a && gone == r && State() == AppliedSelection(s, a, i, r, now)
              && (changed <==> Origin(s) != ApplySelected(Origin(s), a, r))
      ensures remaining == detected && remainingRemove == removed
    {
      var ignoring;
      added, ignoring, gone := Select(add, ignore, remove);
      remaining, remainingRemove, changed := ApplySelection(added, ignoring, gone, now);
    }

    method ApplySelection(added: Names, ignoring: Names, gone: Names, now: int)
      returns (remaining: Names, remainingRemove: Names, changed: bool)
      modifies this
      ensures State() == AppliedSelection(old(State()), added, ignoring, gone, now)
      ensures changed <==> Origin(old(State())) != ApplySelected(Origin(old(State())), added, gone)
      ensures remaining == detected && remainingRemove == removed
    {
      changed := ChangeModels(added, gone);
      IgnoreRules(added, ignoring);
      remaining, remainingRemove := KeepRemaining(added, ignoring, gone);
      lastCheck := now;
    }

    method IgnoreRules(added: Names, ignoring: Names)
      modifies this`ignored
      ensures var rules := Merge(old(ignored), ignoring);
              ignored == if |added| > 0 then Subtract(rules, added) else rules
    {
      ignored := MergeModelNames(ignored, ignoring);
      if |added| > 0 {
        ignored := SubtractModelNames(ignored, added);
      }
    }

    method KeepRemaining(added: Names, ignoring: Names, gone: Names) returns (remaining: Names, remainingRemove: Names)
      modifies this`detected, this`removed
      ensures detected == remaining == Subtract(Normalize(old(detected)), added + ignoring)
      ensures removed == remainingRemove == Subtract(Normalize(old(removed)), gone)
    {
      remaining := SubtractModelNames(Normalize(detected), added + ignoring);
      remainingRemove := SubtractModelNames(Normalize(removed), gone);
      detected, removed := remaining, remainingRemove;
    }

    method Select(add: Names, ignore: Names, remove: Names) returns (added: Names, ignoring: Names, gone: Names)
      ensures (added, ignoring, gone) == Selection(State(), add, ignore, remove)
    {
      added := IntersectModelNames(add, Normalize(detected));
      ignoring := IntersectModelNames(ignore, Normalize(detected));
      gone := IntersectModelNames(remove, Normalize(removed));
      gone := SubtractModelNames(gone, added);
    }

    method ChangeModels(added: Names, gone: Names) returns (changed: bool)
      modifies this`models
      ensures var origin := Origin(old(State())); var next := ApplySelected(origin, added, gone);
              changed == (origin != next) && models == if changed then Join(next, ',') else old(models)
    {
      var origin := Normalize(GetModels(models));
      var next := ApplySelectedModelChanges(origin, added, gone);
      changed := origin != next;
      if changed {
        models := Join(next, ',');
      }
    }
  }

  lemma AllAddsAreNew(local: Names, upstream: Names, ignored: Names, mapping: Mapping, matches: Matcher)
    ensures var p, o := Detect(local, upstream, ignored, mapping, matches), Normalize(local);
            Merge(o, p.add) == o + p.add && forall x :: x in p.add ==> x !in o
  {
    var p, o := Detect(local, upstream, ignored, mapping, matches), Normalize(local);
    DetectIsClean(local, upstream, ignored, mapping, matches);
    NormalizeIsClean(local);
    CleanIsNormal(o);
    CleanIsNormal(p.add);
    FilterAll(p.add, x => x !in o);
  }

  lemma MergeNormal(base: Names, appended: Names)
    ensures Merge(Normalize(base), appended) == Merge(base, appended)
  {
    NormalizeIsClean(base);
    CleanIsNormal(Normalize(base));
  }

  // ----- What reaches the next check through the stored text

  predicate CommaFree(xs: Names) {
    forall x :: x in xs ==> ',' !in x
  }

  lemma OriginHasNoComma(text: string)
    ensures CommaFree(Normalize(GetModels(text)))
  {
    var models := GetModels(text);
    NormalizeIsClean(models);
    forall x | x in Normalize(models)
      ensures ',' !in x
    {
      var i :| 0 <= i < |models| && TrimSpace(models[i]) == x;
      TrimIsTrimmed(models[i], SPACES);
      assert models[i] in models;
    }
  }

  /** A clean list survives being stored as text exactly when no name in it contains a comma. */
  lemma StoredModelsReadBack(xs: Names)
    requires Clean(xs)
    ensures Normalize(GetModels(Join(xs, ','))) == xs <==> CommaFree(xs)
  {
    OriginHasNoComma(Join(xs, ','));
    if xs != [] && CommaFree(xs) {
      assert xs[0] in xs && xs[|xs| - 1] in xs;
      JoinEnds(xs, ',');
      ReadBack(xs, ',');
      CleanIsNormal(xs);
    }
  }

  // ----- Detect, then apply everything, then detect again

  lemma {:induction false} FilterEmpty(xs: Names, p: string -> bool)
    ensures Filter(xs, p) == [] <==> forall x :: x in xs ==> !p(x)
  {
    if Filter(xs, p) != [] {
      assert Filter(xs, p)[0] in Filter(xs, p);
    }
  }

  /** When a check finds nothing pending. */
  lemma NothingPending(local: Names, upstream: Names, ignored: Names, mapping: Mapping, matches: Matcher)
    ensures var p := Detect(local, upstream, ignored, mapping, matches);
            var l, u, rules := Normalize(local), Normalize(upstream), Normalize(ignored);
            && (p.add == [] <==> forall x :: x in u ==> x in l || x in mapping.Values || Ignored(rules, x, matches))
            && (p.remove == [] <==> forall x :: x in l ==> x in mapping.Keys || x in u)
  {
    var l, u, rules := Normalize(local), Normalize(upstream), Normalize(ignored);
    FilterEmpty(u, x => x !in l && x !in mapping.Values && !Ignored(rules, x, matches));
    FilterEmpty(l, x => x !in mapping.Keys && x !in u);
  }

  lemma {:induction false} SelfIntersect(xs: Names)
    requires Clean(xs)
    ensures Intersect(xs, xs) == xs && Intersect([], xs) == []
  {
    CleanIsNormal(xs);
    FilterAll(xs, x => x in xs);
  }

  lemma SubtractDisjoint(xs: Names, ys: Names)
    requires Clean(xs) && Clean(ys) && forall x :: x in xs ==> x !in ys
    ensures Subtract(xs, ys) == xs
  {
    CleanIsNormal(xs);
    CleanIsNormal(ys);
    FilterAll(xs, x => x !in ys);
  }

  /** Selecting everything a check found selects exactly that. */
  lemma SelectEverything(s: Record, p: Pending)
    requires Clean(p.add) && Clean(p.remove) && (forall x :: x in p.add ==> x !in p.remove)
    requires s.detected == p.add && s.removed == p.remove
    ensures Selection(s, p.add, [], p.remove) == (p.add, [], p.remove)
  {
    CleanIsNormal(p.add);
    CleanIsNormal(p.remove);
    SelfIntersect(p.add);
    SelfIntersect(p.remove);
    SubtractDisjoint(p.remove, p.add);
  }

  /** The ignore rules, which are stored and removed like names, without those written like a pending model. */
  function RulesLeft(s: Record, p: Pending): Names {
    Filter(Normalize(s.ignored), rule => rule !in p.add)
  }

  lemma RulesAfterApply(s: Record, p: Pending, now: int)
    requires Clean(p.add)
    ensures Normalize(AppliedSelection(s, p.add, [], p.remove, now).ignored) == RulesLeft(s, p)
  {
    var rules := Normalize(s.ignored);
    NormalizeIsClean(s.ignored);
    MergeIsClean(s.ignored, []);
    assert Merge(s.ignored, []) == rules;
    CleanIsNormal(rules);
    CleanIsNormal(p.add);
    FilterIsClean(rules, rule => rule !in p.add);
    CleanIsNormal(RulesLeft(s, p));
    FilterSame(rules, x => x !in Normalize(p.add), rule => rule !in p.add);
    if p.add == [] {
      FilterAll(rules, rule => rule !in p.add);
    }
  }

  /** Every upstream model that only the rules keep out is still kept out by the rules that are left. */
  predicate StillIgnored(s: Record, upstream: Names, mapping: Mapping, matches: Matcher) {
    var p := Detect(GetModels(s.models), upstream, s.ignored, mapping, matches);
    forall x :: x in Normalize(upstream) && x !in Origin(s) && x !in mapping.Values ==>
      Ignored(Normalize(s.ignored), x, matches) ==> Ignored(RulesLeft(s, p), x, matches)
  }

  lemma LeftRulesIgnoreLess(s: Record, p: Pending, x: string, matches: Matcher)
    requires Ignored(RulesLeft(s, p), x, matches)
    ensures Ignored(Normalize(s.ignored), x, matches)
  {
    var left, rules := RulesLeft(s, p), Normalize(s.ignored);
    var i :| 0 <= i < |left| && RuleMatches(left[i], x, matches);
    assert left[i] in rules;
    var j :| 0 <= j < |rules| && rules[j] == left[i];
  }

  lemma AppliedNames(o: Names, a: Names, r: Names)
    requires Clean(o) && Clean(a) && Clean(r)
    ensures Clean(ApplySelected(o, a, r))
    ensures forall x :: x in ApplySelected(o, a, r) <==> x in a || (x in o && x !in r)
  {
    CleanIsNormal(o);
    CleanIsNormal(a);
    CleanIsNormal(r);
    FilterIsClean(o, x => x in a || x !in r);
    FilterIsClean(a, x => x !in o);
    CleanConcat(Filter(o, x => x in a || x !in r), Filter(a, x => x !in o));
  }

  /** The channel after a check that adds nothing itself, with everything it found applied. */
  function DetectAndApplyAll(s: Record, upstream: Names, mapping: Mapping, matches: Matcher, now: int): Record {
    var p := Detect(GetModels(s.models), upstream, s.ignored, mapping, matches);
    Applied(Checked(s, p, false, now), p.add, [], p.remove, now)
  }

  lemma AfterApplyAll(s: Record, upstream: Names, mapping: Mapping, matches: Matcher, now: int)
    ensures var p := Detect(GetModels(s.models), upstream, s.ignored, mapping, matches);
            var s' := DetectAndApplyAll(s, upstream, mapping, matches, now);
            var next := ApplySelected(Origin(s), p.add, p.remove);
            && s' == AppliedSelection(Checked(s, p, false, now), p.add, [], p.remove, now)
            && (Origin(s') == next <==> CommaFree(p.add)) && Clean(next)
            && forall x :: x in next <==> x in p.add || (x in Origin(s) && x !in p.remove)
  {
    var p := Detect(GetModels(s.models), upstream, s.ignored, mapping, matches);
    DetectIsClean(GetModels(s.models), upstream, s.ignored, mapping, matches);
    SelectEverything(Checked(s, p, false, now), p);
    NormalizeIsClean(GetModels(s.models));
    AppliedNames(Origin(s), p.add, p.remove);
    OriginHasNoComma(s.models);
    StoredModelsReadBack(ApplySelected(Origin(s), p.add, p.remove));
  }

  /**
   With the same upstream list and redirects, checking, applying all that was found and checking
   again finds nothing, exactly when no added name contains a comma (the list is stored as
   comma-separated text, so such a name comes back in pieces), and no upstream model was kept out
   only by rules that are written like added names (applying a name drops the rule).
  */
  lemma ApplyAllIsFixpoint(s: Record, upstream: Names, mapping: Mapping, matches: Matcher, now: int)
    ensures var p := Detect(GetModels(s.models), upstream, s.ignored, mapping, matches);
            var s' := DetectAndApplyAll(s, upstream, mapping, matches, now);
            Detect(GetModels(s'.models), upstream, s'.ignored, mapping, matches) == Pending([], []) <==>
              CommaFree(p.add) && StillIgnored(s, upstream, mapping, matches)
  {
    var p := Detect(GetModels(s.models), upstream, s.ignored, mapping, matches);
    var s' := DetectAndApplyAll(s, upstream, mapping, matches, now);
    AfterApplyAll(s, upstream, mapping, matches, now);
    DetectIsClean(GetModels(s.models), upstream, s.ignored, mapping, matches);
    RulesAfterApply(Checked(s, p, false, now), p, now);
    NothingPending(GetModels(s'.models), upstream, s'.ignored, mapping, matches);
    OriginHasNoComma(s'.models);
    forall x | Ignored(RulesLeft(s, p), x, matches)
      ensures Ignored(Normalize(s.ignored), x, matches)
    {
      LeftRulesIgnoreLess(s, p, x, matches);
    }
    if !CommaFree(p.add) {
      var x :| x in p.add && ',' in x;
      assert x !in Origin(s');
    }
  }

  /** So a channel whose only rule is written like a pending model, and keeps out another one, is not done. */
  lemma OnlyRuleReopens(s: Record, upstream: Names, mapping: Mapping, matches: Matcher, now: int,
                        rule: string, x: string)
    requires Normalize(s.ignored) == [rule] && RuleMatches(rule, x, matches)
    requires rule in Detect(GetModels(s.models), upstream, s.ignored, mapping, matches).add
    requires x in Normalize(upstream) && x !in Origin(s) && x !in mapping.Values
    ensures var s' := DetectAndApplyAll(s, upstream, mapping, matches, now);
            Detect(GetModels(s'.models), upstream, s'.ignored, mapping, matches) != Pending([], [])
  {
    var p := Detect(GetModels(s.models), upstream, s.ignored, mapping, matches);
    FilterEmpty([rule], r => r !in p.add);
    assert Normalize(s.ignored)[0] == rule;
    assert RulesLeft(s, p) == [];
    ApplyAllIsFixpoint(s, upstream, mapping, matches, now);
  }

  const OWN_NAME := "regex:^x"

  lemma OwnNameMatches(name: string, matches: Matcher)
    ensures RuleMatches(OWN_NAME, name, matches) == matches("^x", name)
  {
    assert OWN_NAME[6..] == "^x";
    TrimmedIsKept("^x", SPACES);
  }

  lemma RuleNameIsPending(rule: string, x: string, matches: Matcher)
    requires Clean([rule, x]) && !RuleMatches(rule, rule, matches)
    ensures Normalize([rule]) == [rule] && Normalize([rule, x]) == [rule, x]
    ensures rule in Detect([], [rule, x], [rule], map[], matches).add
  {
    assert [rule, x][0] == rule;
    CleanIsNormal([rule]);
    CleanIsNormal([rule, x]);
  }

  /** An upstream that offers a model written like the only rule, which keeps out another one. */
  lemma RuleNamedModelReopens(matches: Matcher, now: int)
    requires matches("^x", "xa") && !matches("^x", OWN_NAME)
    ensures var s, up := Record("", [OWN_NAME], [], [], false, 0), [OWN_NAME, "xa"];
            var s' := DetectAndApplyAll(s, up, map[], matches, now);
            Detect(GetModels(s'.models), up, s'.ignored, map[], matches) != Pending([], [])
  {
    OwnNameMatches("xa", matches);
    OwnNameMatches(OWN_NAME, matches);
    RuleNameIsPending(OWN_NAME, "xa", matches);
    assert [OWN_NAME, "xa"][1] == "xa";
    OnlyRuleReopens(Record("", [OWN_NAME], [], [], false, 0), [OWN_NAME, "xa"], map[], matches, now, OWN_NAME, "xa");
  }

  // ----- Automatic additions

  /**
   After an automatic check the same upstream list has nothing more to add, exactly when no added
   name contains a comma; then the stale models found are still the same.
  */
  lemma AutoSyncIsFixpoint(s: Record, upstream: Names, mapping: Mapping, matches: Matcher, now: int)
    requires s.autoSync
    ensures var p := Detect(GetModels(s.models), upstream, s.ignored, mapping, matches);
            var s' := Checked(s, p, true, now);
            var p' := Detect(GetModels(s'.models), upstream, s'.ignored, mapping, matches);
            && (p'.add == [] <==> CommaFree(p.add))
            && (CommaFree(p.add) ==> Origin(s') == Origin(s) + p.add && p'.remove == p.remove)
  {
    var p := Detect(GetModels(s.models), upstream, s.ignored, mapping, matches);
    var s' := Checked(s, p, true, now);
    var o, u := Origin(s), Normalize(upstream);
    AllAddsAreNew(GetModels(s.models), upstream, s.ignored, mapping, matches);
    DetectIsClean(GetModels(s.models), upstream, s.ignored, mapping, matches);
    NormalizeIsClean(GetModels(s.models));
    OriginHasNoComma(s.models);
    OriginHasNoComma(s'.models);
    CleanConcat(o, p.add);
    StoredModelsReadBack(o + p.add);
    NothingPending(GetModels(s'.models), upstream, s'.ignored, mapping, matches);
    assert p.add == [] ==> o + p.add == o;
    if CommaFree(p.add) {
      var l := o + p.add;
      FilterConcat(o, p.add, x => x !in mapping.Keys && x !in u);
      FilterEmpty(p.add, x => x !in mapping.Keys && x !in u);
      FilterSame(o, x => x !in mapping.Keys && x !in u, x => x !in mapping.Keys && x !in u);
    } else {
      var x :| x in p.add && ',' in x;
      assert x !in Origin(s');
    }
  }

  /**
   What a successful check stores: its time, the stale models, and every missing one, either among
   the models, when it may add them itself, or in the list for the administrator.
  */
  lemma CheckStores(s: Record, upstream: Names, mapping: Mapping, matches: Matcher, allowAutoApply: bool, now: int)
    ensures var p := Detect(GetModels(s.models), upstream, s.ignored, mapping, matches);
      var s' := Checked(s, p, allowAutoApply, now);
      && s'.lastCheck == now && s'.removed == p.remove && s'.ignored == s.ignored && s'.autoSync == s.autoSync
      && (if allowAutoApply && s.autoSync
          then s'.detected == [] && (Origin(s') == Origin(s) + p.add <==> CommaFree(p.add))
          else s'.detected == p.add && s'.models == s.models)
  {
    var p := Detect(GetModels(s.models), upstream, s.ignored, mapping, matches);
    AllAddsAreNew(GetModels(s.models), upstream, s.ignored, mapping, matches);
    DetectIsClean(GetModels(s.models), upstream, s.ignored, mapping, matches);
    NormalizeIsClean(GetModels(s.models));
    MergeNormal(GetModels(s.models), p.add);
    CleanConcat(Origin(s), p.add);
    OriginHasNoComma(s.models);
    StoredModelsReadBack(Origin(s) + p.add);
  }

  // ----- Applying a selection

  /**
   Every pending addition is added, ignored or still pending afterwards; adding wins over ignoring
   and removing; and nothing else about the pending lists changes.
  */
  lemma SelectionPartitionsPending(s: Record, add: Names, ignore: Names, remove: Names, now: int)
    ensures var (a, i, r) := Selection(s, add, ignore, remove);
            var s' := Applied(s, add, ignore, remove, now);
            var next := ApplySelected(Origin(s), a, r);
            && (forall x :: x in Normalize(s.detected) <==> x in a || x in i || x in s'.detected)
            && (forall x :: x in s'.detected ==> x !in a && x !in i)
            && (forall x :: x in s'.removed <==> x in Normalize(s.removed) && x !in r)
            && (forall x :: x in a ==> x in next && x !in s'.ignored && x !in r)
            && (forall x :: x in i && x !in a ==> x in s'.ignored)
  {
    var d := Normalize(s.detected);
    var (a, i, r) := Selection(s, add, ignore, remove);
    NormalizeIsClean(s.detected);
    NormalizeIsClean(s.removed);
    NormalizeIsClean(add);
    NormalizeIsClean(ignore);
    NormalizeIsClean(remove);
    CleanIsNormal(d);
    CleanIsNormal(Normalize(s.removed));
    FilterIsClean(Normalize(add), x => x in d);
    FilterIsClean(Normalize(ignore), x => x in d);
    SelectedRemovals(s, a, remove);
    CleanIsNormal(a);
    CleanIsNormal(i);
    CleanIsNormal(r);
    NormalizeIsClean(GetModels(s.models));
    AppliedNames(Origin(s), a, r);
    NormalizeConcat(a, i);
    MergeIsClean(s.ignored, i);
    CleanIsNormal(Merge(s.ignored, i));
  }

  /** What a selection takes: names of the request that are really pending, and no removal that is also added. */
  lemma SelectionMeans(s: Record, add: Names, ignore: Names, remove: Names)
    ensures var (a, i, r) := Selection(s, add, ignore, remove);
      && (forall x :: x in a <==> Named(add, x) && Named(s.detected, x))
      && (forall x :: x in i <==> Named(ignore, x) && Named(s.detected, x))
      && (forall x :: x in r <==> Named(remove, x) && Named(s.removed, x) && x !in a)
      && Clean(a) && Clean(i) && Clean(r)
  {
    var d, gone := Normalize(s.detected), Normalize(s.removed);
    IntersectMeans(add, s.detected);
    IntersectMeans(ignore, s.detected);
    IntersectMeans(remove, s.removed);
    var a, r := Intersect(add, d), Intersect(remove, gone);
    CleanIsNormal(a);
    CleanIsNormal(r);
    FilterIsClean(r, x => x !in a);
  }

  lemma IntersectMeans(wanted: Names, pending: Names)
    ensures Clean(Intersect(wanted, Normalize(pending)))
    ensures forall x :: x in Intersect(wanted, Normalize(pending)) <==> Named(wanted, x) && Named(pending, x)
  {
    var d := Normalize(pending);
    NormalizeMeans(wanted);
    NormalizeMeans(pending);
    NormalizeIsClean(wanted);
    NormalizeIsClean(pending);
    CleanIsNormal(d);
    FilterIsClean(Normalize(wanted), x => x in d);
  }

  /**
   The models, as the next check reads them, after a selection is applied: the ones there were, in
   their order, without the removed ones, and the added ones behind; exactly when no added name has
   a comma.
  */
  lemma AppliedModels(s: Record, add: Names, ignore: Names, remove: Names, now: int)
    ensures var (a, i, r) := Selection(s, add, ignore, remove);
      var s' := Applied(s, add, ignore, remove, now);
      && (Origin(s') == Filter(Origin(s), x => x !in r) + Filter(a, x => x !in Origin(s)) <==> CommaFree(a))
      && s'.lastCheck == now && s'.autoSync == s.autoSync
  {
    var (a, i, r) := Selection(s, add, ignore, remove);
    SelectionMeans(s, add, ignore, remove);
    NormalizeIsClean(GetModels(s.models));
    var o := Origin(s);
    AppliedNames(o, a, r);
    CleanIsNormal(o);
    CleanIsNormal(a);
    CleanIsNormal(r);
    FilterSame(o, x => x in a || x !in r, x => x !in r);
    FilterSame(a, x => x !in o, x => x !in Origin(s));
    OriginHasNoComma(s.models);
    StoredModelsReadBack(ApplySelected(o, a, r));
  }

  /** The rules after a selection: the ones there were and the ignored names, without the names that are added. */
  lemma AppliedRules(s: Record, add: Names, ignore: Names, remove: Names, now: int)
    ensures var (a, i, r) := Selection(s, add, ignore, remove);
      forall x :: x in Normalize(Applied(s, add, ignore, remove, now).ignored) <==>
        (Named(s.ignored, x) || x in i) && x !in a
  {
    var (a, i, r) := Selection(s, add, ignore, remove);
    SelectionMeans(s, add, ignore, remove);
    var rules := Merge(s.ignored, i);
    MergeIsClean(s.ignored, i);
    NormalizeMeans(s.ignored);
    CleanIsNormal(i);
    CleanIsNormal(a);
    CleanIsNormal(rules);
    FilterIsClean(rules, x => x !in a);
    CleanIsNormal(Filter(rules, x => x !in a));
    CleanIsNormal(Applied(s, add, ignore, remove, now).ignored);
  }

  /** Some other rule, of the ones that are left or were chosen with it, keeps the name out. */
  predicate OtherwiseKeptOut(s': Record, x: string, matches: Matcher) {
    exists rule :: rule in Normalize(s'.ignored) && rule != x && Keeps(rule, x, matches)
  }

  /**
   An ignored name is offered again by a later check, whatever models and redirects the channel has
   then, exactly when upstream still has it, nothing else covers it, and it is itself written like an
   expression that does not match it. So a name that does not begin with regex: stays away.
  */
  lemma IgnoredStaysAway(s: Record, add: Names, ignore: Names, remove: Names, now: int, x: string,
                         local: Names, upstream: Names, mapping: Mapping, matches: Matcher)
    requires var (a, i, r) := Selection(s, add, ignore, remove); x in i && x !in a
    ensures var s' := Applied(s, add, ignore, remove, now);
      x in Detect(local, upstream, s'.ignored, mapping, matches).add <==>
        && Named(upstream, x) && !Named(local, x) && (forall alias :: alias in mapping ==> mapping[alias] != x)
        && !OtherwiseKeptOut(s', x, matches)
        && |x| >= 6 && x[..6] == "regex:" && !matches(TrimSpace(x[6..]), x)
  {
    var s' := Applied(s, add, ignore, remove, now);
    PendingIs(local, upstream, s'.ignored, mapping, matches);
    AppliedRules(s, add, ignore, remove, now);
    OwnRule(s', x, matches);
  }

  lemma OwnRule(s': Record, x: string, matches: Matcher)
    requires x in Normalize(s'.ignored)
    ensures KeptOut(s'.ignored, x, matches) <==> OtherwiseKeptOut(s', x, matches) || Keeps(x, x, matches)
  {
  }

  lemma SelectedRemovals(s: Record, a: Names, remove: Names)
    requires Clean(a)
    ensures var r := Subtract(Intersect(remove, Normalize(s.removed)), a);
            Clean(r) && forall x :: x in r ==> x in Normalize(s.removed) && x !in a
  {
    var d := Normalize(s.removed);
    NormalizeIsClean(s.removed);
    NormalizeIsClean(remove);
    CleanIsNormal(d);
    FilterIsClean(Normalize(remove), x => x in d);
    CleanIsNormal(Intersect(remove, d));
    CleanIsNormal(a);
    FilterIsClean(Intersect(remove, d), x => x !in a);
  }

  lemma NormalizeConcat(xs: Names, ys: Names)
    requires Clean(xs) && Clean(ys)
    ensures forall x :: x in Normalize(xs + ys) <==> x in xs || x in ys
  {
    NormalizeMembers(xs, ys);
    CleanIsNormal(xs);
    CleanIsNormal(ys);
  }

  lemma {:induction false} NormalizeMembers(xs: Names, ys: Names)
    ensures forall x :: x in Normalize(xs + ys) <==> x in Normalize(xs) || x in Normalize(ys)
  {
    var all := xs + ys;
    if ys == [] {
      assert all == xs;
    } else {
      var before, last := ys[..|ys| - 1], ys[|ys| - 1];
      NormalizeMembers(xs, before);
      assert all[..|all| - 1] == xs + before && all[|all| - 1] == last;
    }
  }
}
