/** The comparison of local pricing with the pricing of several upstream channels: which (model, field) pairs are shown,
    which channels get a column, and what stands in each cell. */
module PricingDiff {
  import opened Options

  // ---- Values ----

  datatype Field =
    | ModelRatio | CompletionRatio | CacheRatio | CreateCacheRatio | ImageRatio
    | AudioRatio | AudioCompletionRatio | ModelPrice | BillingMode | BillingExpr

  const ALL_FIELDS: seq<Field> :=
    [ModelRatio, CompletionRatio, CacheRatio, CreateCacheRatio, ImageRatio,
     AudioRatio, AudioCompletionRatio, ModelPrice, BillingMode, BillingExpr]

  predicate IsNumeric(field: Field) {
    field != BillingMode && field != BillingExpr
  }

  /** A decoded value. `Number` is a float64, `Integer` any other numeric type. */
  datatype Value = Null | Number(number: real) | Integer(integer: int) | Flag(flag: bool) | Text(text: string)

  type Table = map<Field, map<string, Value>>

  datatype Channel = Channel(name: string, data: Table)

  datatype Item = Item(current: Value, upstreams: map<string, Value>, confidence: map<string, bool>)

  type Differences = map<string, map<Field, Item>>

  /** Per channel, whether it is trusted on each model. */
  type Assessment = map<string, map<string, bool>>

  /** The marker written in place of an upstream value that agrees with the local one. */
  const SAME: Value := Text("same")

  const EPSILON: real := 0.000000001

  predicate NearlyEqual(a: real, b: real) {
    if a > b then a - b < EPSILON else b - a < EPSILON
  }

  predicate ValuesEqual(a: Value, b: Value) {
    if a.Number? && b.Number? then NearlyEqual(a.number, b.number) else a == b
  }

  function AsReal(v: Value): Option<real> {
    match v
    case Number(r) => Some(r)
    case Integer(i) => Some(i as real)
    case _ => None
  }

  function Normalize(field: Field, v: Value): Value {
    if IsNumeric(field) && AsReal(v).Some? then Number(AsReal(v).value) else v
  }

  predicate Supplies(table: Table, field: Field, model: string) {
    field in table && model in table[field]
  }

  /** The value a table gives to a pair; null when it gives none. */
  function Read(table: Table, field: Field, model: string): Value {
    if Supplies(table, field, model) then Normalize(field, table[field][model]) else Null
  }

  // ---- What the comparison means ----

  /** Some channel supplies a value that differs from the local one. */
  predicate Disagrees(local: Value, channel: Channel, field: Field, model: string) {
    Supplies(channel.data, field, model) && !ValuesEqual(local, Read(channel.data, field, model))
  }

  /** What one channel shows for a pair: its value where it disagrees, the marker where it agrees or where neither side
      has a value, null where only the local side has one. */
  function CellOf(local: Value, channel: Channel, field: Field, model: string): Value {
    if Disagrees(local, channel, field, model) then Read(channel.data, field, model)
    else if Supplies(channel.data, field, model) || local == Null then SAME
    else Null
  }

  /** The row of a pair over the first `n` channels; of two channels of one name the later one shows. */
  function CellsOf(local: Value, channels: seq<Channel>, n: nat, field: Field, model: string): map<string, Value>
    requires n <= |channels|
  {
    if n == 0 then map[]
    else
      var last := channels[n - 1];
      CellsOf(local, channels, n - 1, field, model)[last.name := CellOf(local, last, field, model)]
  }

  function Cells(local: Value, channels: seq<Channel>, field: Field, model: string): map<string, Value> {
    CellsOf(local, channels, |channels|, field, model)
  }

  /** The pair is written down before pruning. */
  predicate Listed(local: Table, channels: seq<Channel>, field: Field, model: string) {
    exists i :: 0 <= i < |channels| && Lists(Read(local, field, model), channels[i], field, model)
  }

  predicate Lists(local: Value, channel: Channel, field: Field, model: string) {
    if local == Null then Supplies(channel.data, field, model) else Disagrees(local, channel, field, model)
  }

  /** A channel is not trusted on a model it prices with the placeholder 37.5 and 1. */
  predicate Trusted(channel: Channel, model: string) {
    !(Supplies(channel.data, ModelRatio, model) && Supplies(channel.data, CompletionRatio, model)
      && IsNear(channel.data[ModelRatio][model], 37.5)
      && IsNear(channel.data[CompletionRatio][model], 1.0))
  }

  predicate IsNear(v: Value, target: real) {
    AsReal(v).Some? && NearlyEqual(AsReal(v).value, target)
  }

  /** The verdict of the last of the first `n` channels that has the name. */
  predicate TrustOf(channels: seq<Channel>, n: nat, name: string, model: string)
    requires n <= |channels|
  {
    if n == 0 then true
    else if channels[n - 1].name == name then Trusted(channels[n - 1], model)
    else TrustOf(channels, n - 1, name, model)
  }

  predicate Trust(channels: seq<Channel>, name: string, model: string) {
    TrustOf(channels, |channels|, name, model)
  }

  ghost function Names(channels: seq<Channel>): set<string> {
    set channel | channel in channels :: channel.name
  }

  ghost function Verdicts(channels: seq<Channel>, model: string): map<string, bool> {
    map n | n in Names(channels) :: Trust(channels, n, model)
  }

  ghost function RawItem(local: Table, channels: seq<Channel>, field: Field, model: string): Item {
    var current := Read(local, field, model);
    Item(current, Cells(current, channels, field, model), Verdicts(channels, model))
  }

  predicate IsReal(cell: Value) {
    cell != Null && cell != SAME
  }

  predicate ShowsReal(item: Item, name: string) {
    name in item.upstreams && IsReal(item.upstreams[name])
  }

  predicate Has(d: Differences, model: string, field: Field) {
    model in d && field in d[model]
  }

  /** The channel shows a real value in some listed row. */
  ghost predicate Live(local: Table, channels: seq<Channel>, name: string) {
    exists model, field :: ListsReal(local, channels, field, model, name)
  }

  ghost predicate ListsReal(local: Table, channels: seq<Channel>, field: Field, model: string, name: string) {
    Listed(local, channels, field, model) && ShowsReal(RawItem(local, channels, field, model), name)
  }

  ghost function LiveNames(local: Table, channels: seq<Channel>): set<string> {
    set channel | channel in channels && Live(local, channels, channel.name) :: channel.name
  }

  function Restrict(item: Item, live: set<string>): Item {
    Item(item.current, map n | n in item.upstreams && n in live :: item.upstreams[n],
         map n | n in item.confidence && n in live :: item.confidence[n])
  }

  predicate Survives(item: Item, live: set<string>) {
    exists n :: n in item.upstreams && n in live && item.upstreams[n] != SAME
  }

  /** The pruned comparison, pair by pair. */
  ghost predicate IsComparison(local: Table, channels: seq<Channel>, d: Differences) {
    && (forall model, field {:trigger Has(d, model, field)} :: Has(d, model, field) <==>
          Listed(local, channels, field, model)
          && Survives(RawItem(local, channels, field, model), LiveNames(local, channels)))
    && (forall model, field {:trigger Has(d, model, field)} :: Has(d, model, field) ==>
          d[model][field] == Restrict(RawItem(local, channels, field, model), LiveNames(local, channels)))
    && (forall model :: model in d ==> d[model] != map[])
  }

  lemma AllFieldsListed(field: Field)
    ensures field in ALL_FIELDS
  {
    assert forall k :: 0 <= k < |ALL_FIELDS| ==> ALL_FIELDS[k] in ALL_FIELDS;
    assert ALL_FIELDS[0] == ModelRatio && ALL_FIELDS[1] == CompletionRatio && ALL_FIELDS[2] == CacheRatio
      && ALL_FIELDS[3] == CreateCacheRatio && ALL_FIELDS[4] == ImageRatio && ALL_FIELDS[5] == AudioRatio
      && ALL_FIELDS[6] == AudioCompletionRatio && ALL_FIELDS[7] == ModelPrice && ALL_FIELDS[8] == BillingMode
      && ALL_FIELDS[9] == BillingExpr;
  }

  /** The cell of a name is that of the last channel that has it. */
  lemma {:induction false} CellsAt(local: Value, channels: seq<Channel>, n: nat, field: Field, model: string,
                                   name: string)
    returns (i: int)
    requires n <= |channels| && name in CellsOf(local, channels, n, field, model)
    ensures 0 <= i < n && channels[i].name == name && forall j :: i < j < n ==> channels[j].name != name
    ensures CellsOf(local, channels, n, field, model)[name] == CellOf(local, channels[i], field, model)
  {
    i := n - 1;
    if channels[i].name != name {
      i := CellsAt(local, channels, n - 1, field, model, name);
    }
  }

  lemma {:induction false} CellsHave(local: Value, channels: seq<Channel>, n: nat, field: Field, model: string, i: nat)
    requires i < n <= |channels|
    ensures channels[i].name in CellsOf(local, channels, n, field, model)
  {
    if i < n - 1 {
      CellsHave(local, channels, n - 1, field, model, i);
    }
  }

  lemma CellsNamed(local: Value, channels: seq<Channel>, field: Field, model: string)
    ensures Cells(local, channels, field, model).Keys == Names(channels)
  {
    forall name | name in Cells(local, channels, field, model) ensures name in Names(channels) {
      var i := CellsAt(local, channels, |channels|, field, model, name);
      assert channels[i] in channels;
    }
    forall channel | channel in channels ensures channel.name in Cells(local, channels, field, model) {
      var i :| 0 <= i < |channels| && channels[i] == channel;
      CellsHave(local, channels, |channels|, field, model, i);
    }
  }

  // ---- The passes ----

  method CollectModels(local: Table, channels: seq<Channel>) returns (models: set<string>)
    ensures forall model, field :: Supplies(local, field, model) ==> model in models
    ensures forall i, model, field :: 0 <= i < |channels| && Supplies(channels[i].data, field, model) ==>
      model in models
  {
    models := ModelsOf(local);
    for i := 0 to |channels|
      invariant forall model, field :: Supplies(local, field, model) ==> model in models
      invariant forall k, model, field :: 0 <= k < i && Supplies(channels[k].data, field, model) ==> model in models
    {
      var more := ModelsOf(channels[i].data);
      models := models + more;
    }
  }

  method ModelsOf(table: Table) returns (models: set<string>)
    ensures forall model :: model in models <==> exists field :: Supplies(table, field, model)
  {
    models := {};
    for k := 0 to |ALL_FIELDS|
      invariant forall model :: model in models ==> exists field :: Supplies(table, field, model)
      invariant forall j, model :: 0 <= j < k && Supplies(table, ALL_FIELDS[j], model) ==> model in models
    {
      if ALL_FIELDS[k] in table {
        var column := table[ALL_FIELDS[k]];
        assert forall model :: model in column.Keys ==> Supplies(table, ALL_FIELDS[k], model);
        models := models + column.Keys;
      }
    }
    forall model, field | Supplies(table, field, model) ensures model in models {
      AllFieldsListed(field);
      var j :| 0 <= j < |ALL_FIELDS| && ALL_FIELDS[j] == field;
      assert Supplies(table, ALL_FIELDS[j], model);
    }
  }

  /** The confidence pass: of two channels of one name, the later one's verdicts stay. */
  method AssessChannels(channels: seq<Channel>, models: set<string>) returns (trust: Assessment)
    ensures forall i :: 0 <= i < |channels| ==> channels[i].name in trust
    ensures forall name, model :: name in trust && model in models ==>
      model in trust[name] && trust[name][model] == Trust(channels, name, model)
  {
    trust := map[];
    for i := 0 to |channels|
      invariant forall k :: 0 <= k < i ==> channels[k].name in trust
      invariant forall name, model :: name in trust && model in models ==>
        model in trust[name] && trust[name][model] == TrustOf(channels, i, name, model)
    {
      var verdicts := AssessChannel(channels[i], models);
      trust := trust[channels[i].name := verdicts];
    }
  }

  method AssessChannel(channel: Channel, models: set<string>) returns (verdicts: map<string, bool>)
    ensures verdicts.Keys == models
    ensures forall model :: model in models ==> verdicts[model] == Trusted(channel, model)
  {
    verdicts := map[];
    var priced := ModelRatio in channel.data && CompletionRatio in channel.data
      && |channel.data[ModelRatio]| > 0 && |channel.data[CompletionRatio]| > 0;
    var rest := models;
    while rest != {}
      invariant rest <= models && verdicts.Keys == models - rest
      invariant forall model :: model in verdicts ==> verdicts[model] == Trusted(channel, model)
      decreases |rest|
    {
      var model :| model in rest;
      rest := rest - {model};
      var verdict := true;
      if priced {
        verdict := AssessModel(channel.data[ModelRatio], channel.data[CompletionRatio], model);
      }
      verdicts := verdicts[model := verdict];
    }
  }

  method AssessModel(modelRatios: map<string, Value>, completionRatios: map<string, Value>, model: string)
    returns (verdict: bool)
    ensures verdict == !(model in modelRatios && model in completionRatios
      && IsNear(modelRatios[model], 37.5) && IsNear(completionRatios[model], 1.0))
  {
    verdict := true;
    if model in modelRatios {
      if model in completionRatios {
        if IsNear(modelRatios[model], 37.5) && IsNear(completionRatios[model], 1.0) {
          verdict := false;
        }
      }
    }
  }

  /** What one channel contributes to a row, in the order of the checks. */
  method CompareCell(current: Value, channel: Channel, field: Field, model: string)
    returns (cell: Value, supplied: bool, differs: bool)
    ensures cell == CellOf(current, channel, field, model)
    ensures supplied == Supplies(channel.data, field, model)
    ensures current != Null ==> differs == Disagrees(current, channel, field, model)
  {
    cell, supplied, differs := Null, false, false;
    if Supplies(channel.data, field, model) {
      cell := Read(channel.data, field, model);
      supplied := true;
      if current != Null && !ValuesEqual(current, cell) {
        differs := true;
      } else if ValuesEqual(current, cell) {
        cell := SAME;
      }
    }
    if cell == Null && current == Null {
      cell := SAME;
    }
    if current == Null && cell != Null && cell != SAME {
      differs := true;
    }
  }

  predicate Assessed(channels: seq<Channel>, trust: Assessment, model: string) {
    && (forall i :: 0 <= i < |channels| ==> channels[i].name in trust)
    && (forall name :: name in trust ==> model in trust[name] && trust[name][model] == Trust(channels, name, model))
  }

  predicate AnyLists(local: Value, channels: seq<Channel>, n: nat, field: Field, model: string)
    requires n <= |channels|
  {
    n > 0 && (AnyLists(local, channels, n - 1, field, model) || Lists(local, channels[n - 1], field, model))
  }

  lemma {:induction false} AnyListsMeans(local: Value, channels: seq<Channel>, n: nat, field: Field, model: string)
    requires n <= |channels|
    ensures AnyLists(local, channels, n, field, model)
      <==> exists i :: 0 <= i < n && Lists(local, channels[i], field, model)
  {
    if n > 0 {
      AnyListsMeans(local, channels, n - 1, field, model);
    }
  }

  /** The cells of a row, and whether the pair is to be listed. */
  method CompareCells(current: Value, channels: seq<Channel>, field: Field, model: string)
    returns (listed: bool, upstreams: map<string, Value>)
    ensures listed == AnyLists(current, channels, |channels|, field, model)
    ensures upstreams == Cells(current, channels, field, model)
  {
    upstreams := map[];
    var hasUpstream, hasDifference := false, false;
    for i := 0 to |channels|
      invariant upstreams == CellsOf(current, channels, i, field, model)
      invariant (if current != Null then hasDifference else hasUpstream) == AnyLists(current, channels, i, field, model)
    {
      var cell, supplied, differs := CompareCell(current, channels[i], field, model);
      hasUpstream := hasUpstream || supplied;
      hasDifference := hasDifference || differs;
      upstreams := upstreams[channels[i].name := cell];
    }
    listed := if current != Null then hasDifference else hasUpstream;
  }

  method CollectVerdicts(channels: seq<Channel>, trust: Assessment, model: string)
    returns (confidence: map<string, bool>)
    requires Assessed(channels, trust, model)
    ensures confidence == Verdicts(channels, model)
  {
    confidence := map[];
    for i := 0 to |channels|
      invariant forall k :: 0 <= k < i ==> channels[k].name in confidence
      invariant forall n :: n in confidence ==> n in Names(channels) && confidence[n] == Trust(channels, n, model)
    {
      var name := channels[i].name;
      assert channels[i] in channels;
      confidence := confidence[name := trust[name][model]];
    }
  }

  method Compare(local: Table, channels: seq<Channel>, trust: Assessment, field: Field, model: string)
    returns (listed: bool, item: Item)
    requires Assessed(channels, trust, model)
    ensures listed == Listed(local, channels, field, model)
    ensures item == RawItem(local, channels, field, model)
  {
    var current := Read(local, field, model);
    var included, upstreams := CompareCells(current, channels, field, model);
    AnyListsMeans(current, channels, |channels|, field, model);
    listed := included;
    var confidence := CollectVerdicts(channels, trust, model);
    item := Item(current, upstreams, confidence);
  }

  /** Everything listed for a model, nothing pruned yet. */
  ghost function RawRow(local: Table, channels: seq<Channel>, model: string): map<Field, Item> {
    map field: Field | Listed(local, channels, field, model) :: RawItem(local, channels, field, model)
  }

  method CompareModel(local: Table, channels: seq<Channel>, trust: Assessment, model: string)
    returns (row: map<Field, Item>)
    requires Assessed(channels, trust, model)
    ensures row == RawRow(local, channels, model)
  {
    row := map[];
    for k := 0 to |ALL_FIELDS|
      invariant forall field :: field in row ==> Listed(local, channels, field, model)
      invariant forall j :: 0 <= j < k && Listed(local, channels, ALL_FIELDS[j], model) ==> ALL_FIELDS[j] in row
      invariant forall field :: field in row ==> row[field] == RawItem(local, channels, field, model)
    {
      var listed, item := Compare(local, channels, trust, ALL_FIELDS[k], model);
      if listed {
        row := row[ALL_FIELDS[k] := item];
      }
    }
    forall field | Listed(local, channels, field, model) ensures field in row {
      AllFieldsListed(field);
      var j :| 0 <= j < |ALL_FIELDS| && ALL_FIELDS[j] == field;
      assert Listed(local, channels, ALL_FIELDS[j], model);
    }
  }

  method CompareAll(local: Table, channels: seq<Channel>, models: set<string>, trust: Assessment)
    returns (d: Differences)
    requires forall i :: 0 <= i < |channels| ==> channels[i].name in trust
    requires forall name, model :: name in trust && model in models ==>
      model in trust[name] && trust[name][model] == Trust(channels, name, model)
    ensures forall model :: model in d ==> model in models && d[model] == RawRow(local, channels, model)
    ensures forall model :: model in models && model !in d ==> RawRow(local, channels, model) == map[]
  {
    d := map[];
    var rest := models;
    while rest != {}
      invariant rest <= models
      invariant forall model :: model in d ==>
        model in models && model !in rest && d[model] == RawRow(local, channels, model)
      invariant forall model :: model in models && model !in rest && model !in d ==>
        RawRow(local, channels, model) == map[]
      invariant forall model :: model in d ==> d[model] != map[]
      decreases |rest|
    {
      var model :| model in rest;
      rest := rest - {model};
      var row := CompareModel(local, channels, trust, model);
      if row != map[] {
        d := d[model := row];
      }
    }
  }

  /** The channels that show a real value anywhere. */
  method ChannelsWithDifferences(d: Differences) returns (live: set<string>)
    ensures forall n :: n in live <==> exists model, field :: Has(d, model, field) && ShowsReal(d[model][field], n)
  {
    live := {};
    var models := d.Keys;
    while models != {}
      invariant models <= d.Keys
      invariant forall n :: n in live ==> exists model, field :: Has(d, model, field) && ShowsReal(d[model][field], n)
      invariant forall n, model, field :: Has(d, model, field) && model !in models && ShowsReal(d[model][field], n) ==>
        n in live
      decreases |models|
    {
      var model :| model in models;
      models := models - {model};
      var found := ChannelsInRow(d[model]);
      forall n | n in found ensures exists model, field :: Has(d, model, field) && ShowsReal(d[model][field], n) {
        var field :| field in d[model] && ShowsReal(d[model][field], n);
        assert Has(d, model, field);
      }
      live := live + found;
    }
  }

  method ChannelsInRow(row: map<Field, Item>) returns (live: set<string>)
    ensures forall n :: n in live <==> exists field :: field in row && ShowsReal(row[field], n)
  {
    live := {};
    var fields := row.Keys;
    while fields != {}
      invariant fields <= row.Keys
      invariant forall n :: n in live ==> exists field :: field in row && ShowsReal(row[field], n)
      invariant forall n, field :: field in row && field !in fields && ShowsReal(row[field], n) ==> n in live
      decreases |fields|
    {
      var field :| field in fields;
      fields := fields - {field};
      var item := row[field];
      live := live + (set n | n in item.upstreams && ShowsReal(item, n));
    }
  }

  method PruneItem(item: Item, live: set<string>) returns (kept: Item, empty: bool)
    requires item.confidence.Keys == item.upstreams.Keys
    ensures kept == Restrict(item, live)
    ensures empty == !Survives(item, live)
  {
    var upstreams, confidence := item.upstreams, item.confidence;
    var names := item.upstreams.Keys;
    while names != {}
      invariant names <= item.upstreams.Keys
      invariant upstreams == map n | n in item.upstreams && (n in live || n in names) :: item.upstreams[n]
      invariant confidence == map n | n in item.confidence && (n in live || n in names) :: item.confidence[n]
      decreases |names|
    {
      var n :| n in names;
      names := names - {n};
      if n !in live {
        upstreams := upstreams - {n};
        confidence := confidence - {n};
      }
    }
    empty := forall n :: n in upstreams ==> upstreams[n] == SAME;
    kept := Item(item.current, upstreams, confidence);
  }

  ghost function PrunedRow(row: map<Field, Item>, live: set<string>): map<Field, Item> {
    map field | field in row && Survives(row[field], live) :: Restrict(row[field], live)
  }

  ghost predicate Aligned(d: Differences) {
    forall model, field :: Has(d, model, field) ==> d[model][field].confidence.Keys == d[model][field].upstreams.Keys
  }

  ghost predicate IsPruned(raw: Differences, live: set<string>, d: Differences) {
    && d.Keys <= raw.Keys
    && (forall model :: model in d ==> d[model] == PrunedRow(raw[model], live) && d[model] != map[])
    && (forall model :: model in raw && model !in d ==> PrunedRow(raw[model], live) == map[])
  }

  method PruneRow(row: map<Field, Item>, live: set<string>) returns (kept: map<Field, Item>)
    requires forall field :: field in row ==> row[field].confidence.Keys == row[field].upstreams.Keys
    ensures kept == PrunedRow(row, live)
  {
    kept := row;
    var fields := row.Keys;
    while fields != {}
      invariant fields <= row.Keys && kept.Keys <= row.Keys
      invariant forall field :: field in row ==> (field in kept <==> field in fields || Survives(row[field], live))
      invariant forall field :: field in kept ==>
        kept[field] == if field in fields then row[field] else Restrict(row[field], live)
      decreases |fields|
    {
      var field :| field in fields;
      fields := fields - {field};
      var item, empty := PruneItem(row[field], live);
      if empty {
        kept := kept - {field};
      } else {
        kept := kept[field := item];
      }
    }
  }

  /** Drops the channels without a difference, then the rows and the models that show nothing any more. */
  method Prune(raw: Differences, live: set<string>) returns (d: Differences)
    requires Aligned(raw)
    ensures IsPruned(raw, live, d)
  {
    d := raw;
    var models := raw.Keys;
    while models != {}
      invariant models <= raw.Keys
      invariant d.Keys <= raw.Keys
      invariant forall model :: model in models ==> model in d && d[model] == raw[model]
      invariant forall model :: model in d && model !in models ==>
        d[model] == PrunedRow(raw[model], live) && d[model] != map[]
      invariant forall model :: model in raw && model !in d ==> PrunedRow(raw[model], live) == map[]
      decreases |models|
    {
      var model :| model in models;
      models := models - {model};
      assert forall field :: field in raw[model] ==> Has(raw, model, field);
      var row := PruneRow(raw[model], live);
      if row == map[] {
        d := d - {model};
      } else {
        d := d[model := row];
      }
    }
  }

  method BuildDifferences(local: Table, channels: seq<Channel>) returns (d: Differences)
    ensures IsComparison(local, channels, d)
  {
    var models := CollectModels(local, channels);
    var trust := AssessChannels(channels, models);
    var raw := CompareAll(local, channels, models, trust);
    AllListed(local, channels, models, raw);
    RawIsAligned(local, channels, raw);
    var live := ChannelsWithDifferences(raw);
    LiveComputed(local, channels, raw, live);
    d := Prune(raw, live);
    Compared(local, channels, raw, d);
  }

  ghost predicate IsRaw(local: Table, channels: seq<Channel>, raw: Differences) {
    forall model, field :: Has(raw, model, field) == Listed(local, channels, field, model)
      && (Has(raw, model, field) ==> raw[model][field] == RawItem(local, channels, field, model))
  }

  /** No pair to be listed belongs to a model that the first pass misses. */
  lemma AllListed(local: Table, channels: seq<Channel>, models: set<string>, raw: Differences)
    requires forall i, model, field :: 0 <= i < |channels| && Supplies(channels[i].data, field, model) ==>
      model in models
    requires forall model :: model in raw ==> model in models && raw[model] == RawRow(local, channels, model)
    requires forall model :: model in models && model !in raw ==> RawRow(local, channels, model) == map[]
    ensures IsRaw(local, channels, raw)
  {
    forall model, field | Listed(local, channels, field, model) ensures Has(raw, model, field) {
      var i :| 0 <= i < |channels| && Lists(Read(local, field, model), channels[i], field, model);
      assert Supplies(channels[i].data, field, model);
      assert field in RawRow(local, channels, model);
    }
  }

  lemma RawIsAligned(local: Table, channels: seq<Channel>, raw: Differences)
    requires IsRaw(local, channels, raw)
    ensures Aligned(raw)
  {
    forall model, field | Has(raw, model, field)
      ensures raw[model][field].confidence.Keys == raw[model][field].upstreams.Keys
    {
      CellsNamed(Read(local, field, model), channels, field, model);
    }
  }

  lemma Compared(local: Table, channels: seq<Channel>, raw: Differences, d: Differences)
    requires IsRaw(local, channels, raw)
    requires IsPruned(raw, LiveNames(local, channels), d)
    ensures IsComparison(local, channels, d)
  {
    var live := LiveNames(local, channels);
    forall model, field ensures Has(d, model, field) <==> Has(raw, model, field) && Survives(raw[model][field], live) {
      if Has(raw, model, field) && Survives(raw[model][field], live) {
        assert field in PrunedRow(raw[model], live);
      }
    }
  }

  lemma LiveComputed(local: Table, channels: seq<Channel>, raw: Differences, live: set<string>)
    requires IsRaw(local, channels, raw)
    requires forall n :: n in live <==> exists model, field :: Has(raw, model, field) && ShowsReal(raw[model][field], n)
    ensures live == LiveNames(local, channels)
  {
    forall n | n in live ensures n in LiveNames(local, channels) {
      var model, field :| Has(raw, model, field) && ShowsReal(raw[model][field], n);
      assert ListsReal(local, channels, field, model, n);
      LiveIsNamed(local, channels, n);
    }
    forall n | n in LiveNames(local, channels) ensures n in live {
      var model, field :| ListsReal(local, channels, field, model, n);
      assert Has(raw, model, field) && ShowsReal(raw[model][field], n);
    }
  }

  lemma LiveIsNamed(local: Table, channels: seq<Channel>, name: string)
    ensures Live(local, channels, name) <==> name in LiveNames(local, channels)
  {
    if Live(local, channels, name) {
      var model, field :| ListsReal(local, channels, field, model, name);
      var i := CellsAt(Read(local, field, model), channels, |channels|, field, model, name);
      assert channels[i] in channels;
    }
  }

  // ---- What a reader of the comparison may conclude ----

  ghost predicate SomeDisagreement(local: Table, channels: seq<Channel>, field: Field, model: string) {
    exists i :: 0 <= i < |channels| && Disagrees(Read(local, field, model), channels[i], field, model)
  }

  /** No later channel has the name, so the column of the name is this channel's. */
  ghost predicate LastNamed(channels: seq<Channel>, i: nat)
    requires i < |channels|
  {
    forall j :: i < j < |channels| ==> channels[j].name != channels[i].name
  }

  /** The channel disagrees with a value that is neither null nor the marker. */
  predicate ReallyDisagrees(local: Table, channel: Channel, field: Field, model: string) {
    Disagrees(Read(local, field, model), channel, field, model) && IsReal(Read(channel.data, field, model))
  }

  ghost predicate ReallyDisagreesSomewhere(local: Table, channel: Channel) {
    exists field, model :: ReallyDisagrees(local, channel, field, model)
  }

  /** On this pair the channel supplies a disagreeing value other than the marker, or lacks one the local side has. */
  predicate DiffersHere(local: Table, channel: Channel, field: Field, model: string) {
    if Supplies(channel.data, field, model) then
      Disagrees(Read(local, field, model), channel, field, model) && Read(channel.data, field, model) != SAME
    else
      Read(local, field, model) != Null
  }

  /** The channel keeps the pair in the table. */
  ghost predicate Shows(local: Table, channels: seq<Channel>, field: Field, model: string, i: nat) {
    && i < |channels|
    && LastNamed(channels, i)
    && ReallyDisagreesSomewhere(local, channels[i])
    && DiffersHere(local, channels[i], field, model)
  }

  lemma CellOfLast(local: Value, channels: seq<Channel>, field: Field, model: string, i: nat)
    requires i < |channels| && LastNamed(channels, i)
    ensures channels[i].name in Cells(local, channels, field, model)
    ensures Cells(local, channels, field, model)[channels[i].name] == CellOf(local, channels[i], field, model)
  {
    CellsHave(local, channels, |channels|, field, model, i);
    var j := CellsAt(local, channels, |channels|, field, model, channels[i].name);
    assert i == j;
  }

  /** A channel's column is kept exactly when the channel really disagrees on some pair. */
  lemma LiveMeansDisagrees(local: Table, channels: seq<Channel>, i: nat)
    requires i < |channels| && LastNamed(channels, i)
    ensures channels[i].name in LiveNames(local, channels) <==> ReallyDisagreesSomewhere(local, channels[i])
  {
    LiveIsNamed(local, channels, channels[i].name);
    forall field, model
      ensures ListsReal(local, channels, field, model, channels[i].name)
        <==> ReallyDisagrees(local, channels[i], field, model)
    {
      CellOfLast(Read(local, field, model), channels, field, model, i);
      assert ReallyDisagrees(local, channels[i], field, model) ==>
          Lists(Read(local, field, model), channels[i], field, model);
    }
  }

  lemma SurvivesIff(local: Table, channels: seq<Channel>, field: Field, model: string)
    ensures Survives(RawItem(local, channels, field, model), LiveNames(local, channels))
      <==> exists i: nat :: Shows(local, channels, field, model, i)
  {
    var raw, live := RawItem(local, channels, field, model), LiveNames(local, channels);
    if Survives(raw, live) {
      var n :| n in raw.upstreams && n in live && raw.upstreams[n] != SAME;
      var i := CellsAt(raw.current, channels, |channels|, field, model, n);
      LiveMeansDisagrees(local, channels, i);
      assert Shows(local, channels, field, model, i);
    }
    forall i: nat | Shows(local, channels, field, model, i) ensures Survives(raw, live) {
      CellOfLast(raw.current, channels, field, model, i);
      LiveMeansDisagrees(local, channels, i);
    }
  }

  /** A disagreement is always listed, and a listed pair that some channel shows has one. */
  lemma ListedIff(local: Table, channels: seq<Channel>, field: Field, model: string)
    ensures SomeDisagreement(local, channels, field, model) ==> Listed(local, channels, field, model)
    ensures forall i: nat :: Listed(local, channels, field, model) && Shows(local, channels, field, model, i) ==>
      SomeDisagreement(local, channels, field, model)
  {
    var current := Read(local, field, model);
    if SomeDisagreement(local, channels, field, model) {
      var i :| 0 <= i < |channels| && Disagrees(current, channels[i], field, model);
      assert Lists(current, channels[i], field, model);
    }
    if Listed(local, channels, field, model) && current != Null {
      var i :| 0 <= i < |channels| && Lists(current, channels[i], field, model);
      assert Disagrees(current, channels[i], field, model);
    }
    if current == Null {
      forall i: nat | Shows(local, channels, field, model, i) ensures SomeDisagreement(local, channels, field, model) {
        assert Disagrees(current, channels[i], field, model);
      }
    }
  }

  /** Main result, for all tables and channels: a pair is shown exactly when some channel supplies a value that the
      local side lacks or that is not nearly equal to it, and some channel shows that. */
  lemma ShownIff(local: Table, channels: seq<Channel>, d: Differences, field: Field, model: string)
    requires IsComparison(local, channels, d)
    ensures Has(d, model, field)
      <==> SomeDisagreement(local, channels, field, model)
           && exists i: nat :: Shows(local, channels, field, model, i)
  {
    ListedIff(local, channels, field, model);
    SurvivesIff(local, channels, field, model);
  }

  ghost predicate Distinct(channels: seq<Channel>) {
    forall i, j :: 0 <= i < j < |channels| ==> channels[i].name != channels[j].name
  }

  /** No upstream supplies null or the marker itself for the pair. */
  ghost predicate Plain(channels: seq<Channel>, field: Field, model: string) {
    forall i :: 0 <= i < |channels| && Supplies(channels[i].data, field, model) ==>
      IsReal(channels[i].data[field][model])
  }

  /** With distinct names and plain values nothing hides a disagreement. */
  lemma ShownExactly(local: Table, channels: seq<Channel>, d: Differences, field: Field, model: string)
    requires Distinct(channels) && Plain(channels, field, model) && IsComparison(local, channels, d)
    ensures Has(d, model, field) <==> SomeDisagreement(local, channels, field, model)
  {
    ShownIff(local, channels, d, field, model);
    if SomeDisagreement(local, channels, field, model) {
      var i :| 0 <= i < |channels| && Disagrees(Read(local, field, model), channels[i], field, model);
      assert IsReal(channels[i].data[field][model]);
      assert ReallyDisagrees(local, channels[i], field, model);
      assert Shows(local, channels, field, model, i);
    }
  }

  /** Every shown row has one column for each name whose last channel really disagrees anywhere, and no other. */
  lemma ColumnsAreDisagreeing(local: Table, channels: seq<Channel>, d: Differences, field: Field, model: string,
                              name: string)
    requires IsComparison(local, channels, d) && Has(d, model, field)
    ensures name in d[model][field].upstreams <==> exists i: nat ::
      i < |channels| && channels[i].name == name && LastNamed(channels, i)
      && ReallyDisagreesSomewhere(local, channels[i])
    ensures name in d[model][field].confidence <==> name in d[model][field].upstreams
  {
    var current := Read(local, field, model);
    CellsNamed(current, channels, field, model);
    if name in Cells(current, channels, field, model) {
      var i := CellsAt(current, channels, |channels|, field, model, name);
      LiveMeansDisagrees(local, channels, i);
    }
    forall i: nat | i < |channels| && channels[i].name == name && LastNamed(channels, i)
      && ReallyDisagreesSomewhere(local, channels[i])
      ensures name in d[model][field].upstreams
    {
      CellOfLast(current, channels, field, model, i);
      LiveMeansDisagrees(local, channels, i);
    }
  }

  lemma ShownCell(local: Table, channels: seq<Channel>, d: Differences, field: Field, model: string, i: nat)
    requires IsComparison(local, channels, d) && Has(d, model, field)
    requires i < |channels| && LastNamed(channels, i) && channels[i].name in d[model][field].upstreams
    ensures d[model][field].current == Read(local, field, model)
    ensures d[model][field].upstreams[channels[i].name] == CellOf(Read(local, field, model), channels[i], field, model)
  {
    assert d[model][field] == Restrict(RawItem(local, channels, field, model), LiveNames(local, channels));
    CellOfLast(Read(local, field, model), channels, field, model, i);
  }

  /** What a cell says about its channel and its pair, and that it is the channel's own value when it is one. */
  lemma CellsMean(local: Table, channels: seq<Channel>, d: Differences, field: Field, model: string, i: nat)
    requires IsComparison(local, channels, d)
    requires i < |channels| && LastNamed(channels, i)
    ensures Has(d, model, field) && channels[i].name in d[model][field].upstreams ==>
      var cell, current := d[model][field].upstreams[channels[i].name], d[model][field].current;
      && current == Read(local, field, model)
      && (cell != SAME <==> DiffersHere(local, channels[i], field, model))
      && (IsReal(cell) <==> ReallyDisagrees(local, channels[i], field, model))
      && (IsReal(cell) ==> cell == Read(channels[i].data, field, model))
  {
    if Has(d, model, field) && channels[i].name in d[model][field].upstreams {
      ShownCell(local, channels, d, field, model, i);
    }
  }

  /** The verdict beside a cell is that of the cell's own channel. */
  lemma VerdictsMean(local: Table, channels: seq<Channel>, d: Differences, field: Field, model: string, i: nat)
    requires IsComparison(local, channels, d)
    requires i < |channels| && LastNamed(channels, i)
    ensures Has(d, model, field) && channels[i].name in d[model][field].confidence ==>
      d[model][field].confidence[channels[i].name] == Trusted(channels[i], model)
  {
    TrustOfLast(channels, |channels|, model, i);
    assert Has(d, model, field) ==>
      d[model][field] == Restrict(RawItem(local, channels, field, model), LiveNames(local, channels));
  }

  lemma {:induction false} TrustOfLast(channels: seq<Channel>, n: nat, model: string, i: nat)
    requires i < n <= |channels| && LastNamed(channels, i)
    ensures TrustOf(channels, n, channels[i].name, model) == Trusted(channels[i], model)
  {
    if i < n - 1 {
      TrustOfLast(channels, n - 1, model, i);
    }
  }

  // ---- Prices and texts ----

  predicate IsPrice(v: Value) {
    v.Number? || v.Integer?
  }

  function PriceOf(v: Value): real
    requires IsPrice(v)
  {
    if v.Number? then v.number else v.integer as real
  }

  /** What is read from a table: integers count as numbers in all fields but the billing mode and expression. */
  lemma ReadMeans(table: Table, field: Field, model: string)
    ensures Read(table, field, model) ==
      if !Supplies(table, field, model) then Null
      else if field != BillingMode && field != BillingExpr && IsPrice(table[field][model])
      then Number(PriceOf(table[field][model]))
      else table[field][model]
  {
  }

  /** A numeric field, for which both sides give numbers of either kind, if anything. */
  ghost predicate IsPricePair(local: Table, channels: seq<Channel>, field: Field, model: string) {
    && field != BillingMode && field != BillingExpr
    && (Supplies(local, field, model) ==> IsPrice(local[field][model]))
    && forall i :: 0 <= i < |channels| && Supplies(channels[i].data, field, model) ==>
         IsPrice(channels[i].data[field][model])
  }

  /** The channel's price is at least 0.000000001 above or below the local one, or there is no local one. */
  predicate PriceDiffers(local: Table, channel: Channel, field: Field, model: string)
    requires Supplies(local, field, model) ==> IsPrice(local[field][model])
    requires Supplies(channel.data, field, model) ==> IsPrice(channel.data[field][model])
  {
    Supplies(channel.data, field, model)
    && (Supplies(local, field, model) ==>
          var here, there := PriceOf(local[field][model]), PriceOf(channel.data[field][model]);
          there >= here + 0.000000001 || there <= here - 0.000000001)
  }

  lemma PriceDisagrees(local: Table, channels: seq<Channel>, field: Field, model: string, i: nat)
    requires IsPricePair(local, channels, field, model) && i < |channels|
    ensures Disagrees(Read(local, field, model), channels[i], field, model)
      <==> PriceDiffers(local, channels[i], field, model)
  {
    assert Supplies(channels[i].data, field, model) ==> IsPrice(channels[i].data[field][model]);
  }

  /** With distinct names and numbers on both sides, a pair is shown exactly when some channel's price differs. */
  lemma ShownPrices(local: Table, channels: seq<Channel>, d: Differences, field: Field, model: string)
    requires Distinct(channels) && IsPricePair(local, channels, field, model) && IsComparison(local, channels, d)
    ensures Has(d, model, field)
      <==> exists i :: 0 <= i < |channels| && PriceDiffers(local, channels[i], field, model)
  {
    ShownExactly(local, channels, d, field, model);
    forall i | 0 <= i < |channels|
      ensures Disagrees(Read(local, field, model), channels[i], field, model)
        <==> PriceDiffers(local, channels[i], field, model)
    {
      PriceDisagrees(local, channels, field, model, i);
    }
  }

  /** The cells of a shown price: the channel's number where it differs, the marker where it does not, and where the
      channel has none, null against a local price. */
  lemma PriceCells(local: Table, channels: seq<Channel>, d: Differences, field: Field, model: string, i: nat)
    requires IsPricePair(local, channels, field, model) && IsComparison(local, channels, d)
    requires Has(d, model, field) && i < |channels| && LastNamed(channels, i)
    requires channels[i].name in d[model][field].upstreams
    ensures d[model][field].current ==
      if Supplies(local, field, model) then Number(PriceOf(local[field][model])) else Null
    ensures d[model][field].upstreams[channels[i].name] ==
      if PriceDiffers(local, channels[i], field, model) then Number(PriceOf(channels[i].data[field][model]))
      else if Supplies(local, field, model) && !Supplies(channels[i].data, field, model) then Null
      else Text("same")
  {
    ShownCell(local, channels, d, field, model, i);
    PriceCell(local, channels, field, model, i);
  }

  lemma PriceCell(local: Table, channels: seq<Channel>, field: Field, model: string, i: nat)
    requires IsPricePair(local, channels, field, model) && i < |channels|
    ensures Read(local, field, model) ==
      if Supplies(local, field, model) then Number(PriceOf(local[field][model])) else Null
    ensures CellOf(Read(local, field, model), channels[i], field, model) ==
      if PriceDiffers(local, channels[i], field, model) then Number(PriceOf(channels[i].data[field][model]))
      else if Supplies(local, field, model) && !Supplies(channels[i].data, field, model) then Null
      else Text("same")
  {
    PriceDisagrees(local, channels, field, model, i);
    assert Supplies(channels[i].data, field, model) ==> IsPrice(channels[i].data[field][model]);
  }

  /** A billing mode or expression, for which both sides give texts, and no channel the marker. */
  ghost predicate IsTextPair(local: Table, channels: seq<Channel>, field: Field, model: string) {
    && (field == BillingMode || field == BillingExpr)
    && (Supplies(local, field, model) ==> local[field][model].Text?)
    && forall i :: 0 <= i < |channels| && Supplies(channels[i].data, field, model) ==>
         channels[i].data[field][model].Text? && channels[i].data[field][model] != Text("same")
  }

  /** With distinct names such a pair is shown exactly when some channel gives a text that the local side does not. */
  lemma ShownTexts(local: Table, channels: seq<Channel>, d: Differences, field: Field, model: string)
    requires Distinct(channels) && IsTextPair(local, channels, field, model) && IsComparison(local, channels, d)
    ensures Has(d, model, field) <==>
      exists i :: 0 <= i < |channels| && Supplies(channels[i].data, field, model)
        && (Supplies(local, field, model) ==> channels[i].data[field][model] != local[field][model])
  {
    ShownExactly(local, channels, d, field, model);
    forall i | 0 <= i < |channels| && Supplies(channels[i].data, field, model)
      ensures Disagrees(Read(local, field, model), channels[i], field, model)
        <==> (Supplies(local, field, model) ==> channels[i].data[field][model] != local[field][model])
    {
      assert channels[i].data[field][model].Text?;
    }
  }

  /** A channel is distrusted on a model exactly when it prices it, within 0.000000001, at 37.5 and 1. */
  lemma DistrustedIff(channel: Channel, model: string)
    ensures !Trusted(channel, model) <==>
      && Supplies(channel.data, ModelRatio, model) && IsPrice(channel.data[ModelRatio][model])
      && Supplies(channel.data, CompletionRatio, model) && IsPrice(channel.data[CompletionRatio][model])
      && 37.499999999 < PriceOf(channel.data[ModelRatio][model]) < 37.500000001
      && 0.999999999 < PriceOf(channel.data[CompletionRatio][model]) < 1.000000001
  {
  }

  /** A kept channel shows a real value in a row that is itself kept, whatever the names and the values are. */
  lemma KeptChannelsDiffer(local: Table, channels: seq<Channel>, d: Differences, field: Field, model: string,
                           name: string)
    requires IsComparison(local, channels, d)
    requires Has(d, model, field) && name in d[model][field].upstreams
    ensures exists m, f :: Has(d, m, f) && ShowsReal(d[m][f], name)
  {
    LiveIsNamed(local, channels, name);
    var m, f :| ListsReal(local, channels, f, m, name);
    assert Survives(RawItem(local, channels, f, m), LiveNames(local, channels));
    assert Has(d, m, f) && ShowsReal(d[m][f], name);
  }

  // ---- Two ways in which a disagreement is hidden ----

  function OnePrice(model: string, value: Value): Table {
    map[ModelPrice := map[model := value]]
  }

  /** A later channel of the same name that agrees hides the difference of the earlier one. */
  lemma NamesakeHidesDifference(d: Differences)
    requires IsComparison(OnePrice("m", Number(1.0)),
                          [Channel("a", OnePrice("m", Number(2.0))), Channel("a", OnePrice("m", Number(1.0)))], d)
    ensures !Has(d, "m", ModelPrice)
    ensures SomeDisagreement(OnePrice("m", Number(1.0)),
                             [Channel("a", OnePrice("m", Number(2.0))), Channel("a", OnePrice("m", Number(1.0)))],
                             ModelPrice, "m")
  {
    var local := OnePrice("m", Number(1.0));
    var channels := [Channel("a", OnePrice("m", Number(2.0))), Channel("a", OnePrice("m", Number(1.0)))];
    ShownIff(local, channels, d, ModelPrice, "m");
    assert Disagrees(Read(local, ModelPrice, "m"), channels[0], ModelPrice, "m");
    assert !LastNamed(channels, 0) by {
      assert channels[1].name == channels[0].name;
    }
    assert !DiffersHere(local, channels[1], ModelPrice, "m");
  }

  /** An upstream that supplies the marker text, or null, is taken for one without a difference. */
  lemma MarkerHidesDifference(value: Value, d: Differences)
    requires value == SAME || value == Null
    requires IsComparison(OnePrice("m", Number(1.0)), [Channel("a", OnePrice("m", value))], d)
    ensures !Has(d, "m", ModelPrice)
    ensures SomeDisagreement(OnePrice("m", Number(1.0)), [Channel("a", OnePrice("m", value))], ModelPrice, "m")
  {
    var local, channels := OnePrice("m", Number(1.0)), [Channel("a", OnePrice("m", value))];
    ShownIff(local, channels, d, ModelPrice, "m");
    assert Disagrees(Read(local, ModelPrice, "m"), channels[0], ModelPrice, "m");
    assert !ReallyDisagreesSomewhere(local, channels[0]);
  }
}
