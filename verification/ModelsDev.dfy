/** Choosing one price per model among the providers of a models.dev price list. */
module ModelsDev {
  import opened Options
  import opened Floats

  datatype Cost = Cost(input: Option<Float>, output: Option<Float>, cacheRead: Option<Float>)

  datatype Candidate = Candidate(provider: string, input: real, output: Option<real>, cacheRead: Option<real>)

  /** Per provider, the cost of each model it offers. */
  type PriceList = map<string, map<string, Cost>>

  datatype Error = EmptyResponse | NoValidEntries

  datatype Result<T> = Ok(value: T) | Err(error: Error)

  const EPSILON: real := 0.000000001

  predicate NearlyEqual(a: real, b: real) {
    if a > b then a - b < EPSILON else b - a < EPSILON
  }

  // ---- Provider names in order ----

  /** Byte order of names. */
  predicate Before(a: string, b: string) {
    b != [] && (a == [] || a[0] < b[0] || (a[0] == b[0] && Before(a[1..], b[1..])))
  }

  lemma {:induction false} BeforeIsTotal(a: string, b: string)
    ensures Before(a, b) || Before(b, a) || a == b
    ensures !(Before(a, b) && Before(b, a))
    ensures Before(a, b) ==> a != b
  {
    if a != [] && b != [] {
      BeforeIsTotal(a[1..], b[1..]);
      if a[0] == b[0] && a[1..] == b[1..] {
        assert a == [a[0]] + a[1..] && b == [b[0]] + b[1..];
      }
    }
  }

  lemma {:induction false} BeforeIsTransitive(a: string, b: string, c: string)
    requires Before(a, b) && Before(b, c)
    ensures Before(a, c)
  {
    if a != [] && a[0] == b[0] && b[0] == c[0] {
      BeforeIsTransitive(a[1..], b[1..], c[1..]);
    }
  }

  /** At position `k` the names part, and `a` has the smaller character or ends there. */
  predicate PartsAt(a: string, b: string, k: nat) {
    k <= |a| && k < |b| && a[..k] == b[..k] && (k == |a| || a[k] < b[k])
  }

  lemma {:induction false} BeforeIsLexicographic(a: string, b: string)
    ensures Before(a, b) <==> exists k: nat :: PartsAt(a, b, k)
  {
    if a == [] && b != [] {
      assert PartsAt(a, b, 0);
    }
    if a != [] && b != [] {
      BeforeIsLexicographic(a[1..], b[1..]);
      if a[0] < b[0] {
        assert PartsAt(a, b, 0);
      }
      if a[0] == b[0] && Before(a[1..], b[1..]) {
        var k: nat :| PartsAt(a[1..], b[1..], k);
        assert a[..k + 1] == [a[0]] + a[1..][..k] && b[..k + 1] == [b[0]] + b[1..][..k];
        assert PartsAt(a, b, k + 1);
      }
      if k: nat :| PartsAt(a, b, k) && k > 0 {
        assert a[..k][0] == b[..k][0] && a[1..][..k - 1] == a[..k][1..] && b[1..][..k - 1] == b[..k][1..];
        assert PartsAt(a[1..], b[1..], k - 1);
      }
    }
  }

  ghost predicate Ascending(names: seq<string>) {
    forall i, j :: 0 <= i < j < |names| ==> Before(names[i], names[j])
  }

  /** The names of a set, each once, in order. */
  ghost predicate IsListing(names: seq<string>, keys: set<string>) {
    Ascending(names) && (forall name :: name in names <==> name in keys)
  }

  /** A set has one listing: the order in which a map hands out its keys does not matter. */
  lemma {:induction false} ListingIsUnique(xs: seq<string>, ys: seq<string>, keys: set<string>)
    requires IsListing(xs, keys) && IsListing(ys, keys)
    ensures xs == ys
  {
    ListingOfEmpty(xs, keys);
    ListingOfEmpty(ys, keys);
    if xs != [] {
      FirstIsLeast(xs, keys);
      FirstIsLeast(ys, keys);
      BeforeIsTotal(xs[0], ys[0]);
      RestIsListing(xs, keys);
      RestIsListing(ys, keys);
      ListingIsUnique(xs[1..], ys[1..], keys - {xs[0]});
      assert xs == [xs[0]] + xs[1..] && ys == [ys[0]] + ys[1..];
    }
  }

  lemma ListingOfEmpty(xs: seq<string>, keys: set<string>)
    requires IsListing(xs, keys)
    ensures xs == [] <==> keys == {}
  {
    if xs != [] {
      assert xs[0] in xs;
    }
  }

  lemma FirstIsLeast(xs: seq<string>, keys: set<string>)
    requires IsListing(xs, keys) && xs != []
    ensures xs[0] in keys && forall name :: name in keys ==> name == xs[0] || Before(xs[0], name)
  {
    forall name | name in keys ensures name == xs[0] || Before(xs[0], name) {
      assert name in xs;
      var i :| 0 <= i < |xs| && xs[i] == name;
    }
  }

  lemma RestIsListing(xs: seq<string>, keys: set<string>)
    requires IsListing(xs, keys) && xs != []
    ensures IsListing(xs[1..], keys - {xs[0]})
  {
    forall name ensures name in xs[1..] <==> name in keys - {xs[0]} {
      if name in xs[1..] {
        var i :| 0 <= i < |xs| - 1 && xs[1..][i] == name;
        BeforeIsTotal(xs[0], xs[i + 1]);
      }
      if name in keys - {xs[0]} {
        assert name in xs;
        var i :| 0 <= i < |xs| && xs[i] == name;
        assert xs[1..][i - 1] == name;
      }
    }
  }

  /** Collects the keys in whatever order they come and sorts them. */
  method SortedKeys(keys: set<string>) returns (names: seq<string>)
    ensures IsListing(names, keys)
  {
    names := [];
    var rest := keys;
    while rest != {}
      invariant rest <= keys && IsListing(names, keys - rest)
      decreases |rest|
    {
      var key :| key in rest;
      ghost var seen := keys - rest;
      rest := rest - {key};
      names := InsertName(names, key, seen);
      assert keys - rest == seen + {key};
    }
    assert keys - rest == keys;
  }

  method InsertName(names: seq<string>, key: string, ghost keys: set<string>) returns (more: seq<string>)
    requires IsListing(names, keys) && key !in keys
    ensures IsListing(more, keys + {key})
  {
    var at := 0;
    while at < |names| && Before(names[at], key)
      invariant 0 <= at <= |names|
      invariant forall i :: 0 <= i < at ==> Before(names[i], key)
    {
      at := at + 1;
    }
    if at < |names| {
      assert names[at] in names;
      BeforeIsTotal(names[at], key);
      forall i | at <= i < |names| ensures Before(key, names[i]) {
        if at < i {
          BeforeIsTransitive(key, names[at], names[i]);
        }
      }
    }
    more := names[..at] + [key] + names[at..];
    forall name ensures name in more <==> name in keys + {key} {
      assert name in more <==> name in names[..at] || name == key || name in names[at..];
      assert names == names[..at] + names[at..];
    }
  }

  // ---- Candidates ----

  predicate IsValidNonNegative(f: Float) {
    f.Fin? && f.value >= 0.0
  }

  /** The candidate a cost entry stands for, if its prices can be turned into ratios. */
  function Build(provider: string, cost: Cost): Option<Candidate> {
    if cost.input.None? || !IsValidNonNegative(cost.input.value) then None
    else if cost.output.Some? && !IsValidNonNegative(cost.output.value) then None
    else
      var input := cost.input.value.value;
      var output := if cost.output.Some? then Some(cost.output.value.value) else None;
      if input == 0.0 && output.Some? && output.value > 0.0 then None
      else
        var cacheRead := if cost.cacheRead.Some? && IsValidNonNegative(cost.cacheRead.value)
          then Some(cost.cacheRead.value.value) else None;
        Some(Candidate(provider, input, output, cacheRead))
  }

  predicate ShouldReplace(current: Candidate, next: Candidate) {
    var currentNonZero, nextNonZero := current.input > 0.0, next.input > 0.0;
    if currentNonZero != nextNonZero then nextNonZero
    else if nextNonZero && !NearlyEqual(next.input, current.input) then next.input < current.input
    else Before(next.provider, current.provider)
  }

  /** The next candidate takes over when it is the first with a price, or cheaper by 0.000000001 or more; between prices
      closer than that, and between free ones, the provider that comes first by name stands. */
  lemma ReplacesIff(current: Candidate, next: Candidate)
    requires current.input >= 0.0 && next.input >= 0.0
    ensures ShouldReplace(current, next) <==>
      || (current.input == 0.0 && next.input > 0.0)
      || (next.input > 0.0 && next.input <= current.input - 0.000000001)
      || (current.input > 0.0 && next.input > 0.0 && -0.000000001 < next.input - current.input < 0.000000001
          && Before(next.provider, current.provider))
      || (current.input == 0.0 && next.input == 0.0 && Before(next.provider, current.provider))
  {
  }

  function Offer(data: PriceList, provider: string, model: string): Option<Candidate> {
    if provider in data then OfferOf(provider, data[provider], model) else None
  }

  function OfferOf(provider: string, models: map<string, Cost>, model: string): Option<Candidate> {
    if model in models then Build(provider, models[model]) else None
  }

  /** What is held after one more offer. */
  function After(current: Option<Candidate>, offer: Option<Candidate>): Option<Candidate> {
    if offer.Some? && (current.None? || ShouldReplace(current.value, offer.value)) then offer else current
  }

  function Lookup<V>(table: map<string, V>, key: string): Option<V> {
    if key in table then Some(table[key]) else None
  }

  /** What is held for a model after the first `n` providers. */
  function Held(data: PriceList, providers: seq<string>, n: nat, model: string): Option<Candidate>
    requires n <= |providers|
  {
    if n == 0 then None
    else
      After(Held(data, providers, n - 1, model), Offer(data, providers[n - 1], model))
  }

  // ---- The selection loops ----

  /** One provider's models, in name order. */
  method OfferModels(provider: string, models: map<string, Cost>, before: map<string, Candidate>)
    returns (selected: map<string, Candidate>)
    ensures forall model :: Lookup(selected, model) == After(Lookup(before, model), OfferOf(provider, models, model))
  {
    selected := before;
    var names := SortedKeys(models.Keys);
    for k := 0 to |names|
      invariant forall model :: model in names[..k] ==>
        Lookup(selected, model) == After(Lookup(before, model), OfferOf(provider, models, model))
      invariant forall model :: model !in names[..k] ==> Lookup(selected, model) == Lookup(before, model)
    {
      var name := names[k];
      NewName(names, k);
      selected := OfferModel(provider, name, models[name], selected);
      assert names[..k + 1] == names[..k] + [name];
    }
    assert names[..|names|] == names;
  }

  /** One model of one provider: taken when it is the first, or should replace what is held. */
  method OfferModel(provider: string, name: string, cost: Cost, before: map<string, Candidate>)
    returns (selected: map<string, Candidate>)
    ensures Lookup(selected, name) == After(Lookup(before, name), Build(provider, cost))
    ensures forall model :: model != name ==> Lookup(selected, model) == Lookup(before, model)
  {
    selected := before;
    var candidate := Build(provider, cost);
    if candidate.Some? && (name !in selected || ShouldReplace(selected[name], candidate.value)) {
      selected := selected[name := candidate.value];
    }
  }

  lemma NewName(names: seq<string>, k: nat)
    requires Ascending(names) && k < |names|
    ensures names[k] !in names[..k]
  {
    forall i | 0 <= i < k ensures names[..k][i] != names[k] {
      BeforeIsTotal(names[i], names[k]);
    }
  }

  /**
   One candidate per model; an error when there is nothing to choose from. The answer is that of the
   providers in name order, which `ListingIsUnique` shows to be a single one.
  */
  method Select(data: PriceList) returns (result: Result<map<string, Candidate>>)
    ensures result == Err(EmptyResponse) <==> data == map[]
    ensures result.Ok? ==> result.value != map[]
    ensures forall providers :: IsListing(providers, data.Keys) ==> IsSelection(data, providers, result)
  {
    if data == map[] {
      result := Err(EmptyResponse);
      forall providers | IsListing(providers, data.Keys) ensures providers == [] {
        ListingOfEmpty(providers, data.Keys);
      }
      return;
    }
    var providers := SortedKeys(data.Keys);
    var selected: map<string, Candidate> := map[];
    for n := 0 to |providers|
      invariant forall model :: Held(data, providers, n, model) == Lookup(selected, model)
    {
      assert providers[n] in data.Keys;
      var after := OfferModels(providers[n], data[providers[n]], selected);
      selected := after;
    }
    result := if selected == map[] then Err(NoValidEntries) else Ok(selected);
    assert IsSelection(data, providers, result);
    forall other | IsListing(other, data.Keys) ensures other == providers {
      ListingIsUnique(other, providers, data.Keys);
    }
  }

  ghost predicate IsSelection(data: PriceList, providers: seq<string>, result: Result<map<string, Candidate>>) {
    forall model ::
      Held(data, providers, |providers|, model) == if result.Ok? then Lookup(result.value, model) else None
  }

  // ---- What is chosen ----

  ghost predicate Offers(data: PriceList, model: string, c: Candidate) {
    exists provider :: provider in data && Offer(data, provider, model) == Some(c)
  }

  /** What holding on to a candidate through the first `n` providers guarantees. */
  ghost predicate Best(data: PriceList, providers: seq<string>, n: nat, model: string, held: Option<Candidate>)
    requires n <= |providers|
  {
    && (held.None? <==> forall k :: 0 <= k < n ==> Offer(data, providers[k], model).None?)
    && (held.Some? ==> exists k :: 0 <= k < n && Offer(data, providers[k], model) == held)
    && (held.Some? ==> forall k :: 0 <= k < n && Offer(data, providers[k], model).Some? ==>
          Beats(held.value, Offer(data, providers[k], model).value))
  }

  /** The chosen price against another: no zero price while a real one exists, and dearer by less than the tolerance. */
  predicate Beats(chosen: Candidate, other: Candidate) {
    if other.input > 0.0 then chosen.input > 0.0 && chosen.input < other.input + EPSILON
    else chosen.input > 0.0 || chosen.provider == other.provider || Before(chosen.provider, other.provider)
  }

  lemma {:induction false} HeldIsBest(data: PriceList, providers: seq<string>, n: nat, model: string)
    requires n <= |providers| && Ascending(providers)
    ensures Best(data, providers, n, model, Held(data, providers, n, model))
  {
    if n > 0 {
      HeldIsBest(data, providers, n - 1, model);
      var current, offer := Held(data, providers, n - 1, model), Offer(data, providers[n - 1], model);
      if current.Some? && offer.Some? {
        var j :| 0 <= j < n - 1 && Offer(data, providers[j], model) == current;
        BeforeIsTotal(providers[j], providers[n - 1]);
        AfterBeats(current.value, offer.value);
        forall k | 0 <= k < n - 1 && Offer(data, providers[k], model).Some?
          ensures Beats(After(current, offer).value, Offer(data, providers[k], model).value)
        {
          AfterStillBeats(current.value, offer.value, Offer(data, providers[k], model).value);
        }
      }
    }
  }

  /** Providers come in name order, so the tie-breaker never applies and a candidate is replaced only by one that is
      better by at least the tolerance. */
  lemma AfterBeats(current: Candidate, offer: Candidate)
    requires Before(current.provider, offer.provider) && !Before(offer.provider, current.provider)
    requires current.input >= 0.0 && offer.input >= 0.0
    ensures var after := After(Some(current), Some(offer)).value;
      Beats(after, offer) && (after == current || (after == offer && offer.input > 0.0
        && (current.input == 0.0 || offer.input + EPSILON <= current.input)))
  {
  }

  lemma AfterStillBeats(current: Candidate, offer: Candidate, earlier: Candidate)
    requires Before(current.provider, offer.provider) && !Before(offer.provider, current.provider)
    requires current.input >= 0.0 && offer.input >= 0.0
    requires Beats(current, earlier)
    ensures Beats(After(Some(current), Some(offer)).value, earlier)
  {
    AfterBeats(current, offer);
  }

  /**
   Main result: a model is priced exactly when some provider has a usable price for it; the price is
   a provider's own; it is not zero unless all are; and every other non-zero price undercuts it by
   less than the tolerance.
  */
  lemma ChosenPrice(data: PriceList, result: Result<map<string, Candidate>>, providers: seq<string>, model: string)
    requires IsListing(providers, data.Keys) && IsSelection(data, providers, result)
    ensures (result.Ok? && model in result.value) <==> exists c :: Offers(data, model, c)
    ensures result.Ok? && model in result.value ==>
      Offers(data, model, result.value[model])
      && forall c :: Offers(data, model, c) ==> Beats(result.value[model], c)
  {
    var held := Held(data, providers, |providers|, model);
    HeldIsBest(data, providers, |providers|, model);
    forall c | Offers(data, model, c) ensures held.Some? && Beats(held.value, c) {
      var provider :| provider in data && Offer(data, provider, model) == Some(c);
      assert provider in providers;
      var k :| 0 <= k < |providers| && providers[k] == provider;
    }
    if held.Some? {
      var k :| 0 <= k < |providers| && Offer(data, providers[k], model) == held;
      assert providers[k] in data.Keys;
      assert Offers(data, model, held.value);
    }
  }

  // ---- In terms of the price list ----

  /** The entry has an input price, an output price if any, and not a free input with an output to be paid. */
  predicate IsUsable(cost: Cost) {
    && cost.input.Some? && cost.input.value.Fin? && cost.input.value.value >= 0.0
    && (cost.output.Some? ==> cost.output.value.Fin? && cost.output.value.value >= 0.0)
    && !(cost.input == Some(Fin(0.0)) && cost.output.Some? && cost.output != Some(Fin(0.0)))
  }

  /** A candidate carries the prices of its provider's own entry, each from its own field. */
  predicate IsOwn(cost: Cost, c: Candidate) {
    && cost.input == Some(Fin(c.input))
    && cost.output == (if c.output.Some? then Some(Fin(c.output.value)) else None)
    && (c.cacheRead.Some? <==> cost.cacheRead.Some? && cost.cacheRead.value.Fin? && cost.cacheRead.value.value >= 0.0)
    && (c.cacheRead.Some? ==> cost.cacheRead == Some(Fin(c.cacheRead.value)))
  }

  lemma OffersOwn(data: PriceList, model: string, c: Candidate)
    ensures Offers(data, model, c) <==>
      c.provider in data && model in data[c.provider] && IsUsable(data[c.provider][model])
      && IsOwn(data[c.provider][model], c)
  {
    if c.provider in data && model in data[c.provider] && IsUsable(data[c.provider][model])
      && IsOwn(data[c.provider][model], c)
    {
      assert Offer(data, c.provider, model) == Some(c);
    }
  }

  /** A model is priced exactly when some provider has a usable entry for it. The price is that of such an entry, and
      a positive one below every positive price of a usable entry plus 0.000000001. */
  lemma PricedIff(data: PriceList, result: Result<map<string, Candidate>>, providers: seq<string>, model: string)
    requires IsListing(providers, data.Keys) && IsSelection(data, providers, result)
    ensures (result.Ok? && model in result.value) <==>
      exists p :: p in data && model in data[p] && IsUsable(data[p][model])
    ensures result.Ok? && model in result.value ==>
      var c := result.value[model];
      && c.provider in data && model in data[c.provider] && IsUsable(data[c.provider][model])
      && IsOwn(data[c.provider][model], c)
      && forall p :: p in data && model in data[p] && IsUsable(data[p][model]) && data[p][model].input.value.value > 0.0
           ==> 0.0 < c.input < data[p][model].input.value.value + 0.000000001
  {
    ChosenPrice(data, result, providers, model);
    forall p | p in data && model in data[p] && IsUsable(data[p][model])
      ensures exists c :: Offers(data, model, c) && c.provider == p && IsOwn(data[p][model], c)
    {
      UsableIsOffered(data, p, model);
    }
    forall c | Offers(data, model, c)
      ensures c.provider in data && model in data[c.provider] && IsUsable(data[c.provider][model])
              && IsOwn(data[c.provider][model], c)
    {
      OffersOwn(data, model, c);
    }
  }

  lemma UsableIsOffered(data: PriceList, p: string, model: string)
    requires p in data && model in data[p] && IsUsable(data[p][model])
    ensures exists c :: Offers(data, model, c) && c.provider == p && IsOwn(data[p][model], c)
  {
    var offer := Offer(data, p, model);
    assert offer.Some? && IsOwn(data[p][model], offer.value) && Offers(data, model, offer.value);
  }

  /**
   When no price lies strictly between the least non-zero one and the tolerance above it, the choice
   is the cheapest.
  */
  lemma CheapestWhenApart(data: PriceList, result: Result<map<string, Candidate>>, providers: seq<string>,
                          model: string, least: Candidate)
    requires IsListing(providers, data.Keys) && IsSelection(data, providers, result)
    requires Offers(data, model, least) && least.input > 0.0
    requires forall c :: Offers(data, model, c) && c.input > 0.0 ==>
      c.input == least.input || c.input >= least.input + EPSILON
    ensures result.Ok? && model in result.value && result.value[model].input == least.input
  {
    ChosenPrice(data, result, providers, model);
  }

  ghost predicate IsLeast(data: PriceList, model: string, least: Candidate) {
    && Offers(data, model, least) && least.input > 0.0
    && forall c :: Offers(data, model, c) && c.input > 0.0 ==> c.input >= least.input
  }

  /** The documentation promises the cheapest non-zero price. It is chosen exactly when, at the first provider that asks
      it, nothing is held that is dearer by less than the tolerance. */
  lemma CheapestIff(data: PriceList, result: Result<map<string, Candidate>>, providers: seq<string>, model: string,
                    least: Candidate, k: nat)
    requires IsListing(providers, data.Keys) && IsSelection(data, providers, result) && IsLeast(data, model, least)
    requires k < |providers| && Offer(data, providers[k], model) == Some(least)
    requires forall j :: 0 <= j < k && Offer(data, providers[j], model).Some? ==>
      Offer(data, providers[j], model).value.input != least.input
    ensures result.Ok? && model in result.value
    ensures result.value[model].input == least.input <==>
      var held := Held(data, providers, k, model);
      held.Some? && held.value.input > 0.0 ==> held.value.input >= least.input + EPSILON
  {
    HeldThenOffered(data, providers, k, model);
    var held := Held(data, providers, k, model);
    assert Held(data, providers, k + 1, model) == After(held, Some(least));
    if held.Some? {
      var j := HeldWasOffered(data, providers, k, model);
      assert Offer(data, providers[j], model).value.input != least.input;
      AfterBeats(held.value, least);
    }
    NearLeastStays(data, providers, k + 1, |providers|, model, least);
  }

  /** Once a price within the tolerance of the least one is held, it stays. */
  lemma {:induction false} NearLeastStays(data: PriceList, providers: seq<string>, m: nat, n: nat, model: string,
                                          least: Candidate)
    requires IsListing(providers, data.Keys) && IsLeast(data, model, least) && m <= n <= |providers|
    requires var held := Held(data, providers, m, model);
      held.Some? && 0.0 < held.value.input < least.input + EPSILON
    ensures Held(data, providers, n, model) == Held(data, providers, m, model)
  {
    if m < n {
      NearLeastStays(data, providers, m, n - 1, model, least);
      HeldThenOffered(data, providers, n - 1, model);
      var held, offer := Held(data, providers, n - 1, model), Offer(data, providers[n - 1], model);
      if offer.Some? {
        AfterBeats(held.value, offer.value);
      }
    }
  }

  lemma HeldThenOffered(data: PriceList, providers: seq<string>, n: nat, model: string)
    requires IsListing(providers, data.Keys) && n < |providers|
    ensures var held, offer := Held(data, providers, n, model), Offer(data, providers[n], model);
      && (offer.Some? ==> Offers(data, model, offer.value))
      && (held.Some? && offer.Some? ==>
            Before(held.value.provider, offer.value.provider) && !Before(offer.value.provider, held.value.provider)
            && held.value.input >= 0.0 && offer.value.input >= 0.0)
  {
    var held, offer := Held(data, providers, n, model), Offer(data, providers[n], model);
    assert providers[n] in data.Keys;
    if held.Some? {
      var j := HeldWasOffered(data, providers, n, model);
      BeforeIsTotal(providers[j], providers[n]);
    }
  }

  lemma {:induction false} HeldWasOffered(data: PriceList, providers: seq<string>, n: nat, model: string)
    returns (j: int)
    requires IsListing(providers, data.Keys) && n <= |providers| && Held(data, providers, n, model).Some?
    ensures 0 <= j < n && Offer(data, providers[j], model) == Held(data, providers, n, model)
    ensures Offers(data, model, Held(data, providers, n, model).value)
  {
    j := n - 1;
    if Held(data, providers, n, model) != Offer(data, providers[j], model) {
      j := HeldWasOffered(data, providers, n - 1, model);
    }
    assert providers[j] in data.Keys;
  }

  /** So a dearer price may win: 3 against 2.9999999995, when the dearer provider comes first by name. */
  lemma DearerMayWin(data: PriceList, result: Result<map<string, Candidate>>)
    requires data == map["a" := map["m" := Cost(Some(Fin(3.0)), None, None)],
                         "b" := map["m" := Cost(Some(Fin(2.9999999995)), None, None)]]
    requires IsSelection(data, ["a", "b"], result)
    ensures IsListing(["a", "b"], data.Keys)
    ensures result.Ok? && "m" in result.value && result.value["m"].input == 3.0
  {
    var providers := ["a", "b"];
    assert Before(providers[0], providers[1]);
    assert Held(data, providers, 0, "m") == None;
    assert Held(data, providers, 1, "m") == Some(Candidate("a", 3.0, None, None));
    assert !Before(providers[1], providers[0]);
    assert Held(data, providers, 2, "m") == Some(Candidate("a", 3.0, None, None));
  }
}
