/**
 Multi-key channels (controller/channel.go, ManageMultiKeys; model/channel.go, UpdateFields): a list
 of keys stored as one text, with index-keyed maps of status, disabled time and reason. Every action
 reads the keys from the text; deleting keys compacts the list, re-indexes the maps, joins the keys
 again, and stores the channel with its size counted in the new text and its maps cut to that size.
*/
module MultiKey {
  import opened GoStrings
  import opened KeyList
  import opened Options

  const ENABLED := 1
  const MANUAL_DISABLED := 2
  const AUTO_DISABLED := 3

  /** What an action works on. `size` is MultiKeySize; a nil map of the source is an empty one here. */
  datatype Keys = Keys(
    keys: seq<string>, size: int,
    status: map<int, int>, time: map<int, int>, reason: map<int, string>)

  /** The status of the i-th key: enabled unless the map says otherwise. */
  function Status(c: Keys, i: int): int {
    StatusIn(c.status, i)
  }

  datatype Reply = Done(count: int) | OutOfRange | LastKey | NothingToDo

  // ----- Compaction as a function of the surviving indices

  /** The indices below n that are not dropped, in order. */
  function Kept(n: nat, drop: set<int>): (k: seq<int>)
    ensures |k| <= n && forall j :: 0 <= j < |k| ==> 0 <= k[j] < n
  {
    if n == 0 then []
    else if n - 1 in drop then Kept(n - 1, drop)
    else Kept(n - 1, drop) + [n - 1]
  }

  function Pick(keys: seq<string>, kept: seq<int>): seq<string>
    requires forall j :: 0 <= j < |kept| ==> 0 <= kept[j] < |keys|
  {
    seq(|kept|, j requires 0 <= j < |kept| => keys[kept[j]])
  }

  function Reindex<T>(m: map<int, T>, kept: seq<int>): map<int, T> {
    map j | 0 <= j < |kept| && kept[j] in m :: m[kept[j]]
  }

  /** The entries of an index-keyed map that belong to keys which are not enabled. */
  function OfDisabled<T>(c: Keys, m: map<int, T>): map<int, T> {
    map i | i in m && Status(c, i) != ENABLED :: m[i]
  }

  /** The three index-keyed maps together. */
  datatype Entries = Entries(status: map<int, int>, time: map<int, int>, reason: map<int, string>)

  function DisabledEntries(c: Keys, kept: seq<int>): Entries {
    Entries(Reindex(OfDisabled(c, c.status), kept), Reindex(OfDisabled(c, c.time), kept),
            Reindex(OfDisabled(c, c.reason), kept))
  }

  function AllEntries(c: Keys, kept: seq<int>): Entries {
    Entries(Reindex(OfDisabled(c, c.status), kept), Reindex(c.time, kept), Reindex(c.reason, kept))
  }

  /** The channel without the keys at `drop`, as delete_key removes them. */
  function Compact(c: Keys, drop: set<int>): Keys {
    var kept := Kept(|c.keys|, drop);
    WithEntries(Pick(c.keys, kept), AllEntries(c, kept))
  }

  function WithEntries(keys: seq<string>, e: Entries): Keys {
    Keys(keys, |keys|, e.status, e.time, e.reason)
  }

  function AutoDisabled(c: Keys): set<int> {
    set i | 0 <= i < |c.keys| && Status(c, i) == AUTO_DISABLED
  }

  /** The delete_key action before it is stored. */
  function DeleteKey(c: Keys, index: int): (Keys, Reply) {
    if index < 0 || index >= c.size then (c, OutOfRange)
    else if Kept(|c.keys|, {index}) == [] then (c, LastKey)
    else (Compact(c, {index}), Done(1))
  }

  /** The delete_disabled_keys action before it is stored; unlike delete_key it may leave no key at all. */
  function DeleteDisabledKeys(c: Keys): (Keys, Reply) {
    var kept := Kept(|c.keys|, AutoDisabled(c));
    if |kept| == |c.keys| then (c, NothingToDo)
    else (WithEntries(Pick(c.keys, kept), DisabledEntries(c, kept)), Done(|c.keys| - |kept|))
  }

  // ----- The stored channel

  datatype Record = Record(
    text: string, size: int, status: map<int, int>, time: map<int, int>, reason: map<int, string>)

  function Below<T>(m: map<int, T>, n: int): map<int, T> {
    map i | i in m && i < n :: m[i]
  }

  /** UpdateFields: the size is counted in the text, and entries from there on are dropped. */
  function Synced(r: Record, parse: Parser): Record {
    var n := CountKeys(r.text, parse);
    Record(r.text, n, Below(r.status, n), Below(r.time, n), Below(r.reason, n))
  }

  function Load(r: Record, parse: Parser): Keys {
    Keys(GetKeys(r.text, parse), r.size, r.status, r.time, r.reason)
  }

  function Store(c: Keys, parse: Parser): Record {
    Synced(Record(Join(c.keys, '\n'), c.size, c.status, c.time, c.reason), parse)
  }

  /** delete_key on the stored channel. */
  function DeleteStoredKey(r: Record, index: int, parse: Parser): (Record, Reply) {
    var (c, reply) := DeleteKey(Load(r, parse), index);
    (if reply.Done? then Store(c, parse) else r, reply)
  }

  /** delete_disabled_keys on the stored channel. */
  function DeleteStoredDisabled(r: Record, parse: Parser): (Record, Reply) {
    var (c, reply) := DeleteDisabledKeys(Load(r, parse));
    (if reply.Done? then Store(c, parse) else r, reply)
  }

  /** disable_all_keys on the stored channel: nothing is stored when no key is enabled. */
  function DisableStored(r: Record, parse: Parser): (Record, Reply) {
    var count := CountEnabled(r.status, r.size);
    if count == 0 then (r, NothingToDo)
    else (Synced(r.(status := Disabled(r.status, r.size)), parse), Done(count))
  }

  /** An append of the lines of `input` to the stored channel; one without a key so far takes the input as its text. */
  function AppendStored(r: Record, input: string, parse: Parser): Record {
    if TrimSpace(input) == "" then r
    else if r.text == "" then Synced(r.(text := input), parse)
    else
      var existing := ExistingKeys(r.text, parse);
      Synced(r.(text := Join(existing + Fresh(existing, Split(input, '\n')), '\n')), parse)
  }

  function StatusIn(status: map<int, int>, i: int): int {
    if i in status then status[i] else ENABLED
  }

  function Disabled(status: map<int, int>, n: int): map<int, int>
    decreases if n > 0 then n else 0
  {
    if n <= 0 then status
    else
      var before := Disabled(status, n - 1);
      if StatusIn(status, n - 1) == ENABLED then before[n - 1 := MANUAL_DISABLED] else before
  }

  function CountEnabled(status: map<int, int>, n: int): nat
    decreases if n > 0 then n else 0
  {
    if n <= 0 then 0 else CountEnabled(status, n - 1) + if StatusIn(status, n - 1) == ENABLED then 1 else 0
  }

  // ----- The channel, updated in place

  class Channel {
    var text: string
    var size: int
    var status: map<int, int>
    var time: map<int, int>
    var reason: map<int, string>

    ghost function State(): Record
      reads this
    {
      Record(text, size, status, time, reason)
    }

    constructor (r: Record)
      ensures State() == r
    {
      text, size, status, time, reason := r.text, r.size, r.status, r.time, r.reason;
    }

    method DeleteKeyAt(index: int, parse: Parser) returns (reply: Reply)
      modifies this
      ensures (State(), reply) == DeleteStoredKey(old(State()), index, parse)
    {
      if index < 0 || index >= size {
        return OutOfRange;
      }
      var c := Keys(GetKeys(text, parse), size, status, time, reason);
      var remaining, entries := KeepAllBut(c, index);
      if |remaining| == 0 {
        return LastKey;
      }
      Replace(remaining, entries, parse);
      return Done(1);
    }

    method DeleteAutoDisabled(parse: Parser) returns (reply: Reply)
      modifies this
      ensures (State(), reply) == DeleteStoredDisabled(old(State()), parse)
    {
      var c := Keys(GetKeys(text, parse), size, status, time, reason);
      var remaining, deleted, entries := KeepNotAutoDisabled(c);
      if deleted == 0 {
        return NothingToDo;
      }
      Replace(remaining, entries, parse);
      return Done(deleted);
    }

    /** Every enabled key becomes manually disabled, the others stay as they are. */
    method DisableAll(parse: Parser) returns (reply: Reply)
      modifies this
      ensures (State(), reply) == DisableStored(old(State()), parse)
    {
      var newStatus, count := DisableEnabled(status, size);
      if count == 0 {
        return NothingToDo;
      }
      status := newStatus;
      UpdateFields(parse);
      return Done(count);
    }

    /** The key_mode append of UpdateChannel: only the text is extended, and UpdateFields stores the channel. */
    method Append(input: string, parse: Parser)
      modifies this
      ensures State() == AppendStored(old(State()), input, parse)
    {
      if TrimSpace(input) == "" {
        return;
      }
      if text == "" {
        text := input;
      } else {
        text := AppendToText(text, Split(input, '\n'), parse);
      }
      UpdateFields(parse);
    }

    method Replace(remaining: seq<string>, entries: Entries, parse: Parser)
      modifies this
      ensures State() == Store(WithEntries(remaining, entries), parse)
    {
      text, size := Join(remaining, '\n'), |remaining|;
      status, time, reason := entries.status, entries.time, entries.reason;
      UpdateFields(parse);
    }

    /** The part of UpdateFields that keeps the metadata in step with the key text. */
    method UpdateFields(parse: Parser)
      modifies this
      ensures State() == Synced(old(State()), parse)
    {
      size := CountKeys(text, parse);
      status := DropFromSize(status, size);
      time := DropFromSize(time, size);
      reason := DropFromSize(reason, size);
    }
  }

  method DropFromSize<T(==)>(m: map<int, T>, size: int) returns (short: map<int, T>)
    ensures short == Below(m, size)
  {
    short := m;
    var rest := m.Items;
    while rest != {}
      invariant rest <= m.Items && short.Keys <= m.Keys
      invariant forall i :: i in m ==> (i in short <==> (i, m[i]) in rest || i < size)
      invariant forall i :: i in short ==> short[i] == m[i]
      decreases |rest|
    {
      var entry :| entry in rest;
      if entry.0 >= size {
        short := short - {entry.0};
      }
      rest := rest - {entry};
    }
    assert forall i :: i in short <==> i in m && i < size;
  }

  method DisableEnabled(status: map<int, int>, size: int) returns (newStatus: map<int, int>, count: nat)
    ensures newStatus == Disabled(status, size) && count == CountEnabled(status, size)
  {
    newStatus, count := status, 0;
    var i := 0;
    while i < size
      invariant i == 0 || 0 <= i <= size
      invariant newStatus == Disabled(status, i) && count == CountEnabled(status, i)
    {
      DisabledSoFar(status, i);
      assert StatusIn(newStatus, i) == StatusAfter(status, i, i);
      if !(i in newStatus && newStatus[i] != ENABLED) {
        newStatus := newStatus[i := MANUAL_DISABLED];
        count := count + 1;
      }
      i := i + 1;
    }
  }

  function StatusAfter(status: map<int, int>, n: int, i: int): int {
    if 0 <= i < n && StatusIn(status, i) == ENABLED then MANUAL_DISABLED else StatusIn(status, i)
  }

  lemma {:induction false} DisabledSoFar(status: map<int, int>, n: int)
    ensures forall i :: StatusIn(Disabled(status, n), i) == StatusAfter(status, n, i)
  {
    if n > 0 {
      DisabledSoFar(status, n - 1);
      forall i
        ensures StatusIn(Disabled(status, n), i) == StatusAfter(status, n, i)
      {
        assert StatusIn(Disabled(status, n - 1), i) == StatusAfter(status, n - 1, i);
      }
    }
  }

  predicate SameEntry<T(==)>(m: map<int, T>, m': map<int, T>, i: int) {
    (i in m <==> i in m') && (i in m ==> m[i] == m'[i])
  }

  /** An enabled key has become manually disabled, another one has its status, and both have their time and reason. */
  predicate DisabledAt(r: Record, all: Record, i: int) {
    && StatusIn(all.status, i) == (if StatusIn(r.status, i) == ENABLED then MANUAL_DISABLED else StatusIn(r.status, i))
    && SameEntry(r.time, all.time, i) && SameEntry(r.reason, all.reason, i)
  }

  /** Every enabled key becomes manually disabled, the others stay as they are, and the enabled ones are counted. */
  lemma DisableAllDisables(r: Record, parse: Parser)
    ensures var (all, reply) := DisableStored(r, parse);
      && reply == (var n := |EnabledBelow(r.status, r.size)|; if n > 0 then Done(n) else NothingToDo)
      && (reply == NothingToDo ==> all == r)
      && (reply != NothingToDo ==> all.text == r.text && all.size == CountKeys(r.text, parse))
      && (forall i :: 0 <= i < r.size && i < all.size ==> DisabledAt(r, all, i))
      && (reply != NothingToDo ==> forall i :: i in all.status.Keys + all.time.Keys + all.reason.Keys ==> i < all.size)
  {
    DisabledSoFar(r.status, r.size);
    EnabledAreCounted(r.status, r.size);
    forall i | 0 <= i < r.size && CountEnabled(r.status, r.size) == 0
      ensures StatusIn(r.status, i) != ENABLED
    {
      assert i !in EnabledBelow(r.status, r.size);
    }
    forall i | 0 <= i < r.size && i < DisableStored(r, parse).0.size
      ensures DisabledAt(r, DisableStored(r, parse).0, i)
    {
      assert StatusIn(Disabled(r.status, r.size), i) == StatusAfter(r.status, r.size, i);
    }
  }

  function EnabledBelow(status: map<int, int>, n: int): set<int> {
    set i | 0 <= i < n && StatusIn(status, i) == ENABLED
  }

  lemma {:induction false} EnabledAreCounted(status: map<int, int>, n: int)
    ensures CountEnabled(status, n) == |EnabledBelow(status, n)|
  {
    if n > 0 {
      EnabledAreCounted(status, n - 1);
      assert EnabledBelow(status, n)
          == EnabledBelow(status, n - 1) + if StatusIn(status, n - 1) == ENABLED then {n - 1} else {};
    }
  }

  // ----- The compaction loops

  method KeepAllBut(c: Keys, index: int) returns (remaining: seq<string>, entries: Entries)
    ensures var kept := Kept(|c.keys|, {index}); remaining == Pick(c.keys, kept) && entries == AllEntries(c, kept)
  {
    remaining, entries := [], Entries(map[], map[], map[]);
    var newIndex := 0;
    ghost var kept: seq<int> := [];
    for i := 0 to |c.keys|
      invariant kept == Kept(i, {index})
      invariant remaining == Pick(c.keys, kept) && newIndex == |kept|
      invariant entries == AllEntries(c, kept)
    {
      if i != index {
        remaining := remaining + [c.keys[i]];
        entries := CarryAll(c, i, newIndex, kept, entries);
        newIndex := newIndex + 1;
        kept := kept + [i];
      }
    }
  }

  /** The entries of a surviving key under its new index; an enabled key has no status entry. */
  method CarryAll(c: Keys, i: int, newIndex: int, ghost kept: seq<int>, entries: Entries) returns (more: Entries)
    requires newIndex == |kept| && entries == AllEntries(c, kept)
    ensures more == AllEntries(c, kept + [i])
  {
    ReindexAppend(OfDisabled(c, c.status), kept, i);
    var newStatus := entries.status;
    if i in c.status && c.status[i] != ENABLED {
      newStatus := newStatus[newIndex := c.status[i]];
    }
    var newTime := MoveEntry(c.time, i, newIndex, kept, entries.time);
    var newReason := MoveEntry(c.reason, i, newIndex, kept, entries.reason);
    more := Entries(newStatus, newTime, newReason);
  }

  method MoveEntry<T>(m: map<int, T>, i: int, newIndex: int, ghost kept: seq<int>, entries: map<int, T>)
    returns (more: map<int, T>)
    requires newIndex == |kept| && entries == Reindex(m, kept)
    ensures more == Reindex(m, kept + [i])
  {
    ReindexAppend(m, kept, i);
    more := if i in m then entries[newIndex := m[i]] else entries;
  }

  method KeepNotAutoDisabled(c: Keys) returns (remaining: seq<string>, deleted: int, entries: Entries)
    ensures var kept := Kept(|c.keys|, AutoDisabled(c));
            remaining == Pick(c.keys, kept) && deleted == |c.keys| - |kept| && entries == DisabledEntries(c, kept)
  {
    remaining, deleted, entries := [], 0, Entries(map[], map[], map[]);
    NoEntries(c);
    var newIndex := 0;
    ghost var drop := AutoDisabled(c);
    ghost var kept: seq<int> := [];
    for i := 0 to |c.keys|
      invariant kept == Kept(i, drop)
      invariant remaining == Pick(c.keys, kept) && newIndex == |kept| && deleted == i - newIndex
      invariant entries == DisabledEntries(c, kept)
    {
      var st := if i in c.status then c.status[i] else ENABLED;
      assert i in drop <==> st == AUTO_DISABLED;
      if st == AUTO_DISABLED {
        deleted := deleted + 1;
      } else {
        PickAppend(c.keys, kept, i);
        remaining := remaining + [c.keys[i]];
        entries := CarryOver(c, i, st, newIndex, kept, entries);
        newIndex := newIndex + 1;
        kept := kept + [i];
      }
    }
  }

  /** The entries of a surviving key that is not enabled, under its new index. */
  method CarryOver(c: Keys, i: int, st: int, newIndex: int, ghost kept: seq<int>, entries: Entries)
    returns (more: Entries)
    requires st == Status(c, i) && newIndex == |kept| && entries == DisabledEntries(c, kept)
    ensures more == DisabledEntries(c, kept + [i])
  {
    ReindexAppend(OfDisabled(c, c.status), kept, i);
    ReindexAppend(OfDisabled(c, c.time), kept, i);
    ReindexAppend(OfDisabled(c, c.reason), kept, i);
    var newStatus, newTime, newReason := entries.status, entries.time, entries.reason;
    if st != ENABLED {
      newStatus := newStatus[newIndex := st];
      if i in c.time {
        newTime := newTime[newIndex := c.time[i]];
      }
      if i in c.reason {
        newReason := newReason[newIndex := c.reason[i]];
      }
    }
    more := Entries(newStatus, newTime, newReason);
  }

  lemma NoEntries(c: Keys)
    ensures DisabledEntries(c, []) == Entries(map[], map[], map[])
  {
  }

  lemma PickAppend(keys: seq<string>, kept: seq<int>, i: int)
    requires (forall j :: 0 <= j < |kept| ==> 0 <= kept[j] < |keys|) && 0 <= i < |keys|
    ensures Pick(keys, kept + [i]) == Pick(keys, kept) + [keys[i]]
  {
  }

  lemma ReindexAppend<T>(m: map<int, T>, kept: seq<int>, i: int)
    ensures Reindex(m, kept + [i]) == if i in m then Reindex(m, kept)[|kept| := m[i]] else Reindex(m, kept)
  {
  }

  // ----- Surviving indices

  lemma {:induction false} KeptFacts(n: nat, drop: set<int>)
    ensures forall i :: i in Kept(n, drop) <==> 0 <= i < n && i !in drop
    ensures forall i, j :: 0 <= i < j < |Kept(n, drop)| ==> Kept(n, drop)[i] < Kept(n, drop)[j]
  {
    if n > 0 {
      KeptFacts(n - 1, drop);
    }
  }

  function Positions(n: nat): seq<int> {
    seq(n, j => j)
  }

  /** Dropping an index below everything dropped so far takes out the element at that position. */
  lemma {:induction false} KeptWithout(n: nat, drop: set<int>, k: int)
    requires 0 <= k < n && k !in drop && forall d :: d in drop ==> k < d
    ensures var kept := Kept(n, drop);
            k < |kept| && kept[..k + 1] == Positions(k + 1) && Kept(n, drop + {k}) == kept[..k] + kept[k + 1..]
  {
    if k == n - 1 {
      KeptAll(k, drop);
      KeptAll(k, drop + {k});
      assert Kept(n, drop) == Positions(k) + [k];
    } else {
      KeptWithout(n - 1, drop, k);
    }
  }

  lemma {:induction false} KeptAll(n: nat, drop: set<int>)
    requires forall d :: d in drop ==> n <= d
    ensures Kept(n, drop) == Positions(n)
  {
    if n > 0 {
      KeptAll(n - 1, drop);
    }
  }

  function Compose(kept: seq<int>, again: seq<int>): seq<int>
    requires forall j :: 0 <= j < |again| ==> 0 <= again[j] < |kept|
  {
    seq(|again|, j requires 0 <= j < |again| => kept[again[j]])
  }

  /** Compacting twice with index `k` the second time is compacting once without `k`. */
  lemma ComposeWithout(n: nat, drop: set<int>, k: int)
    requires 0 <= k < n && k !in drop && forall d :: d in drop ==> k < d
    ensures var kept := Kept(n, drop); Compose(kept, Kept(|kept|, {k})) == Kept(n, drop + {k})
  {
    var kept := Kept(n, drop);
    KeptWithout(n, drop, k);
    AllButOne(|kept|, k);
    var both := kept[..k] + kept[k + 1..];
    assert forall j :: 0 <= j < |both| ==> both[j] == kept[if j < k then j else j + 1];
  }

  lemma AllButOne(n: nat, k: int)
    requires 0 <= k < n
    ensures |Kept(n, {k})| == n - 1
    ensures forall j :: 0 <= j < n - 1 ==> Kept(n, {k})[j] == if j < k then j else j + 1
  {
    KeptWithout(n, {}, k);
    KeptAll(n, {});
    assert {} + {k} == {k};
    assert Kept(n, {k}) == Positions(n)[..k] + Positions(n)[k + 1..];
  }

  lemma PickPick(keys: seq<string>, kept: seq<int>, again: seq<int>)
    requires forall j :: 0 <= j < |kept| ==> 0 <= kept[j] < |keys|
    requires forall j :: 0 <= j < |again| ==> 0 <= again[j] < |kept|
    ensures Pick(Pick(keys, kept), again) == Pick(keys, Compose(kept, again))
  {
  }

  lemma ReindexReindex<T>(m: map<int, T>, kept: seq<int>, again: seq<int>)
    requires forall j :: 0 <= j < |again| ==> 0 <= again[j] < |kept|
    ensures Reindex(Reindex(m, kept), again) == Reindex(m, Compose(kept, again))
  {
  }

  // ----- delete_disabled_keys against repeated delete_key

  /** After the keys at `drop` are gone, deleting `k` below them leaves what dropping both leaves. */
  lemma DeleteBelow(c: Keys, drop: set<int>, k: int)
    requires 0 <= k < |c.keys| && k !in drop && forall d :: d in drop ==> k < d
    requires |Kept(|c.keys|, drop)| > 1
    ensures DeleteKey(Compact(c, drop), k).0 == Compact(c, drop + {k})
  {
    var n, c' := |c.keys|, Compact(c, drop);
    var kept := Kept(n, drop);
    var again := Kept(|kept|, {k});
    KeptWithout(n, drop, k);
    AllButOne(|kept|, k);
    ComposeWithout(n, drop, k);
    PickPick(c.keys, kept, again);
    assert OfDisabled(c', c'.status) == c'.status;
    ReindexReindex(OfDisabled(c, c.status), kept, again);
    ReindexReindex(c.time, kept, again);
    ReindexReindex(c.reason, kept, again);
  }

  /** The channel after the auto-disabled keys at or above `m` have been deleted one by one. */
  function DropFrom(c: Keys, m: nat): set<int> {
    set i | m <= i < |c.keys| && Status(c, i) == AUTO_DISABLED
  }

  lemma DropNext(c: Keys, m: nat)
    requires 0 < m <= |c.keys|
    ensures DropFrom(c, m - 1) == DropFrom(c, m) + if Status(c, m - 1) == AUTO_DISABLED then {m - 1} else {}
  {
  }

  /** delete_key on the stored channel for each auto-disabled index from the highest down to `m`. */
  function DeleteDownTo(r: Record, m: nat, parse: Parser): Record
    decreases |GetKeys(r.text, parse)| - m
  {
    var c := Load(r, parse);
    if m >= |c.keys| then r
    else
      var before := DeleteDownTo(r, m + 1, parse);
      if Status(c, m) == AUTO_DISABLED then DeleteStoredKey(before, m, parse).0 else before
  }

  /** A compacted channel comes back from the store as it was exactly when its keys do. */
  lemma LoadStored(c: Keys, drop: set<int>, parse: Parser)
    ensures var d := Compact(c, drop); Load(Store(d, parse), parse) == d <==> Storable(d.keys, parse)
  {
    var d := Compact(c, drop);
    StoredKeysReadBack(d.keys, parse);
    BelowAll(d.status, d.size);
    BelowAll(d.time, d.size);
    BelowAll(d.reason, d.size);
  }

  lemma BelowAll<T>(m: map<int, T>, n: int)
    requires forall i :: i in m ==> i < n
    ensures Below(m, n) == m
  {
  }

  /** One more deletion below the ones already made, on a channel that was read back well. */
  lemma DeleteNextStored(c: Keys, r: Record, drop: set<int>, k: int, parse: Parser)
    requires c.size == |c.keys| && 0 <= k < |c.keys| && k !in drop && forall d :: d in drop ==> k < d
    requires Load(r, parse) == if drop == {} then c else Compact(c, drop)
    requires |Kept(|c.keys|, drop)| > 1
    ensures DeleteStoredKey(r, k, parse).0 == Store(Compact(c, drop + {k}), parse)
  {
    KeptWithout(|c.keys|, drop, k);
    AllButOne(|Kept(|c.keys|, drop)|, k);
    if drop == {} {
      KeptAll(|c.keys|, {});
      assert drop + {k} == {k};
    } else {
      DeleteBelow(c, drop, k);
    }
  }

  /** Some auto-disabled keys lie at or above `m`, others below: the deletions have come halfway. */
  predicate Between(c: Keys, m: nat) {
    DropFrom(c, m) != {} && exists i :: 0 <= i < m && i < |c.keys| && Status(c, i) == AUTO_DISABLED
  }

  /** As the next request loads the channel, just the auto-disabled keys from `m` on are gone. */
  predicate OnTrack(r: Record, m: nat, parse: Parser) {
    Load(DeleteDownTo(r, m, parse), parse) == Compact(Load(r, parse), DropFrom(Load(r, parse), m))
  }

  /** The keys deleted so far, if any, are gone from the stored channel, and nothing else has changed. */
  predicate Deleted(r: Record, m: nat, parse: Parser) {
    var c := Load(r, parse);
    DeleteDownTo(r, m, parse) == if DropFrom(c, m) == {} then r else Store(Compact(c, DropFrom(c, m)), parse)
  }

  /** What the keys deleted so far leave behind, as long as each call found the channel on track. */
  lemma {:induction false} DeletionsReach(r: Record, m: nat, parse: Parser)
    requires var c := Load(r, parse); c.size == |c.keys| && m <= |c.keys| && Kept(|c.keys|, DropFrom(c, m)) != []
    requires forall k :: m < k <= |GetKeys(r.text, parse)| && Between(Load(r, parse), k) ==> OnTrack(r, k, parse)
    ensures Deleted(r, m, parse)
    decreases |GetKeys(r.text, parse)| - m
  {
    var c := Load(r, parse);
    if m < |c.keys| {
      DropNext(c, m + 1);
      KeptShrinks(|c.keys|, DropFrom(c, m + 1), DropFrom(c, m));
      DeletionsReach(r, m + 1, parse);
      if Status(c, m) == AUTO_DISABLED {
        DeletionReaches(r, m, parse);
      } else {
        NoDeletion(r, m, parse);
      }
    }
  }

  lemma NoDeletion(r: Record, m: nat, parse: Parser)
    requires m < |GetKeys(r.text, parse)| && Status(Load(r, parse), m) != AUTO_DISABLED
    requires Deleted(r, m + 1, parse)
    ensures Deleted(r, m, parse)
  {
    assert DropFrom(Load(r, parse), m) == DropFrom(Load(r, parse), m + 1);
    assert DeleteDownTo(r, m, parse) == DeleteDownTo(r, m + 1, parse);
  }

  lemma DeletionReaches(r: Record, m: nat, parse: Parser)
    requires var c := Load(r, parse);
      c.size == |c.keys| && m < |c.keys| && Status(c, m) == AUTO_DISABLED && Kept(|c.keys|, DropFrom(c, m)) != []
    requires DropFrom(Load(r, parse), m + 1) == {} ==> DeleteDownTo(r, m + 1, parse) == r
    requires Between(Load(r, parse), m + 1) ==> OnTrack(r, m + 1, parse)
    ensures DropFrom(Load(r, parse), m) != {}
    ensures DeleteDownTo(r, m, parse) == Store(Compact(Load(r, parse), DropFrom(Load(r, parse), m)), parse)
  {
    var c := Load(r, parse);
    var drop := DropFrom(c, m + 1);
    DropNext(c, m + 1);
    assert m in DropFrom(c, m);
    TwoAreKept(|c.keys|, drop, m);
    assert drop != {} ==> Between(c, m + 1);
    DeleteNextStored(c, DeleteDownTo(r, m + 1, parse), drop, m, parse);
  }

  lemma TwoAreKept(n: nat, drop: set<int>, m: int)
    requires 0 <= m < n && m !in drop && Kept(n, drop + {m}) != []
    ensures |Kept(n, drop)| > 1
  {
    KeptFacts(n, drop);
    KeptFacts(n, drop + {m});
    var s := Kept(n, drop + {m})[0];
    assert s in Kept(n, drop + {m}) && s in Kept(n, drop) && m in Kept(n, drop);
  }

  lemma KeptShrinks(n: nat, drop: set<int>, more: set<int>)
    requires drop <= more && Kept(n, more) != []
    ensures Kept(n, drop) != []
  {
    KeptFacts(n, drop);
    KeptFacts(n, more);
    assert Kept(n, more)[0] in Kept(n, more);
  }

  /** The keys left halfway always come back from the store. */
  predicate HalfwayStorable(c: Keys, parse: Parser) {
    forall m :: 0 <= m <= |c.keys| && Between(c, m) ==> Storable(Pick(c.keys, Kept(|c.keys|, DropFrom(c, m))), parse)
  }

  lemma {:induction false} StaysOnTrack(r: Record, m: nat, parse: Parser)
    requires var c := Load(r, parse); c.size == |c.keys| && m <= |c.keys|
    requires HalfwayStorable(Load(r, parse), parse)
    ensures forall k :: m <= k <= |GetKeys(r.text, parse)| && Between(Load(r, parse), k) ==> OnTrack(r, k, parse)
    decreases |GetKeys(r.text, parse)| - m
  {
    var c := Load(r, parse);
    if m < |c.keys| {
      StaysOnTrack(r, m + 1, parse);
    }
    if Between(c, m) {
      KeptFacts(|c.keys|, DropFrom(c, m));
      var i :| 0 <= i < m && i < |c.keys| && Status(c, i) == AUTO_DISABLED;
      assert i in Kept(|c.keys|, DropFrom(c, m));
      DeletionsReach(r, m, parse);
      LoadStored(c, DropFrom(c, m), parse);
    }
  }

  /** No enabled key that is still counted in the stored text carries a left-over disabled time or reason. */
  predicate Tidy(c: Keys, parse: Parser) {
    var kept := Kept(|c.keys|, AutoDisabled(c));
    var n := CountKeys(Join(Pick(c.keys, kept), '\n'), parse);
    SameAfter(c, c.time, kept, n) && SameAfter(c, c.reason, kept, n)
  }

  /**
   Every call of the repetition finds just the keys it should, and the last one leaves the channel
   that delete_disabled_keys leaves.
  */
  ghost predicate IsRepeatedDelete(r: Record, parse: Parser) {
    AlwaysOnTrack(r, parse) && DeleteStoredDisabled(r, parse).0 == DeleteDownTo(r, 0, parse)
  }

  ghost predicate AlwaysOnTrack(r: Record, parse: Parser) {
    forall m :: 0 <= m <= |GetKeys(r.text, parse)| && Between(Load(r, parse), m) ==> OnTrack(r, m, parse)
  }

  /**
   delete_disabled_keys does what delete_key does for each auto-disabled index from the highest to
   the lowest, exactly when there is nothing to delete, or when some key survives, the keys left
   between two calls come back from the store, and times and reasons are recorded for disabled keys
   only. (With no survivor it deletes even the last key, which delete_key refuses; a list that does
   not come back moves the indices of the later calls; and it forgets what is recorded for enabled
   keys, which delete_key keeps.)
  */
  lemma DeleteDisabledIsRepeatedDelete(r: Record, parse: Parser)
    requires r.size == |GetKeys(r.text, parse)|
    ensures var c := Load(r, parse);
      IsRepeatedDelete(r, parse) <==>
        AutoDisabled(c) == {}
        || (Kept(|c.keys|, AutoDisabled(c)) != [] && HalfwayStorable(c, parse) && Tidy(c, parse))
  {
    var c := Load(r, parse);
    if AutoDisabled(c) == {} {
      NothingIsRepeated(r, parse);
    } else if Kept(|c.keys|, AutoDisabled(c)) == [] {
      LastKeyStays(r, parse);
    } else {
      OnTrackIff(r, parse);
      if AlwaysOnTrack(r, parse) {
        LastCallAgrees(r, parse);
      }
    }
  }

  lemma NothingIsRepeated(r: Record, parse: Parser)
    requires AutoDisabled(Load(r, parse)) == {}
    ensures IsRepeatedDelete(r, parse)
  {
    var c := Load(r, parse);
    NoneToDelete(r, 0, parse);
    KeptAll(|c.keys|, {});
    assert forall m: nat :: DropFrom(c, m) <= AutoDisabled(c);
  }

  lemma OnTrackIff(r: Record, parse: Parser)
    requires var c := Load(r, parse);
      c.size == |c.keys| && AutoDisabled(c) != {} && Kept(|c.keys|, AutoDisabled(c)) != []
    ensures AlwaysOnTrack(r, parse) <==> HalfwayStorable(Load(r, parse), parse)
  {
    assert DropFrom(Load(r, parse), 0) == AutoDisabled(Load(r, parse));
    if HalfwayStorable(Load(r, parse), parse) {
      StaysOnTrack(r, 0, parse);
    }
    if AlwaysOnTrack(r, parse) {
      TrackedIsStorable(r, parse);
    }
  }

  lemma LastCallAgrees(r: Record, parse: Parser)
    requires var c := Load(r, parse);
      c.size == |c.keys| && AutoDisabled(c) != {} && Kept(|c.keys|, AutoDisabled(c)) != []
    requires AlwaysOnTrack(r, parse)
    ensures DeleteStoredDisabled(r, parse).0 == DeleteDownTo(r, 0, parse) <==> Tidy(Load(r, parse), parse)
  {
    var c := Load(r, parse);
    assert DropFrom(c, 0) == AutoDisabled(c);
    FewerKept(|c.keys|, AutoDisabled(c));
    DeletionsReach(r, 0, parse);
    StoresAgree(c, parse);
  }

  lemma TrackedIsStorable(r: Record, parse: Parser)
    requires var c := Load(r, parse); c.size == |c.keys| && Kept(|c.keys|, AutoDisabled(c)) != []
    requires AlwaysOnTrack(r, parse)
    ensures HalfwayStorable(Load(r, parse), parse)
  {
    var c := Load(r, parse);
    forall m | 0 <= m <= |c.keys| && Between(c, m)
      ensures Storable(Pick(c.keys, Kept(|c.keys|, DropFrom(c, m))), parse)
    {
      KeptShrinks(|c.keys|, DropFrom(c, m), AutoDisabled(c));
      DeletionsReach(r, m, parse);
      LoadStored(c, DropFrom(c, m), parse);
    }
  }

  lemma {:induction false} KeptBelow(n: nat, m: nat, drop: set<int>)
    requires m <= n && forall i :: i in drop <==> m <= i < n
    ensures Kept(n, drop) == Positions(m)
  {
    KeptAll(m, drop);
    KeptSkips(n, m, drop);
  }

  lemma {:induction false} KeptSkips(n: nat, m: nat, drop: set<int>)
    requires m <= n && forall i :: m <= i < n ==> i in drop
    ensures Kept(n, drop) == Kept(m, drop)
  {
    if m < n {
      KeptSkips(n - 1, m, drop);
    }
  }

  /** If every key is auto-disabled, the last call is refused and delete_disabled_keys is not. */
  lemma LastKeyStays(r: Record, parse: Parser)
    requires var c := Load(r, parse);
      c.size == |c.keys| && AutoDisabled(c) != {} && Kept(|c.keys|, AutoDisabled(c)) == []
    ensures !IsRepeatedDelete(r, parse)
  {
    var c := Load(r, parse);
    var n := |c.keys|;
    KeptFacts(n, AutoDisabled(c));
    forall i | 0 <= i < n
      ensures i in AutoDisabled(c)
    {
      assert i !in Kept(n, AutoDisabled(c));
    }
    assert 0 in AutoDisabled(c);
    assert Status(c, 0) == AUTO_DISABLED;
    assert DeleteStoredDisabled(r, parse).0.text == "";
    if IsRepeatedDelete(r, parse) {
      var before := DeleteDownTo(r, 1, parse);
      if n > 1 {
        assert n - 1 in DropFrom(c, 1);
        assert Between(c, 1) && OnTrack(r, 1, parse);
        assert forall i :: i in DropFrom(c, 1) <==> i in AutoDisabled(c) && 1 <= i;
        KeptBelow(n, 1, DropFrom(c, 1));
      }
      assert |GetKeys(before.text, parse)| == 1;
      AllButOne(1, 0);
    }
  }

  /** Both actions store the same channel exactly when they keep the same times and reasons. */
  lemma StoresAgree(c: Keys, parse: Parser)
    ensures var kept := Kept(|c.keys|, AutoDisabled(c));
      var disabled := WithEntries(Pick(c.keys, kept), DisabledEntries(c, kept));
      Store(disabled, parse) == Store(Compact(c, AutoDisabled(c)), parse) <==> Tidy(c, parse)
  {
    var kept := Kept(|c.keys|, AutoDisabled(c));
    var n := CountKeys(Join(Pick(c.keys, kept), '\n'), parse);
    ReindexAgrees(c, c.time, kept, n);
    ReindexAgrees(c, c.reason, kept, n);
  }

  predicate SameAfter<T>(c: Keys, m: map<int, T>, kept: seq<int>, n: int) {
    forall j :: 0 <= j < |kept| && j < n && kept[j] in m ==> Status(c, kept[j]) != ENABLED
  }

  lemma ReindexAgrees<T>(c: Keys, m: map<int, T>, kept: seq<int>, n: int)
    ensures Below(Reindex(OfDisabled(c, m), kept), n) == Below(Reindex(m, kept), n) <==> SameAfter(c, m, kept, n)
  {
    var a, b := Below(Reindex(OfDisabled(c, m), kept), n), Below(Reindex(m, kept), n);
    if a == b {
      forall j | 0 <= j < |kept| && j < n && kept[j] in m
        ensures Status(c, kept[j]) != ENABLED
      {
        assert j in b && j in a;
      }
    }
  }

  lemma {:induction false} NoneToDelete(r: Record, m: nat, parse: Parser)
    requires AutoDisabled(Load(r, parse)) == {}
    ensures DeleteDownTo(r, m, parse) == r
    decreases |GetKeys(r.text, parse)| - m
  {
    if m < |GetKeys(r.text, parse)| {
      NoneToDelete(r, m + 1, parse);
      assert m !in AutoDisabled(Load(r, parse));
    }
  }

  lemma {:induction false} FewerKept(n: nat, drop: set<int>)
    requires exists d :: 0 <= d < n && d in drop
    ensures |Kept(n, drop)| < n
  {
    if n - 1 !in drop {
      FewerKept(n - 1, drop);
    }
  }

  // ----- What the deletions answer

  lemma {:induction false} KeptCount(n: nat, drop: set<int>)
    requires forall d :: d in drop ==> 0 <= d < n
    ensures |Kept(n, drop)| == n - |drop|
  {
    if n == 0 {
      assert forall d :: d !in drop;
    } else if n - 1 in drop {
      KeptCount(n - 1, drop - {n - 1});
      KeptSame(n - 1, drop, drop - {n - 1});
    } else {
      KeptCount(n - 1, drop);
    }
  }

  lemma {:induction false} KeptSame(n: nat, drop: set<int>, drop': set<int>)
    requires forall i :: 0 <= i < n ==> (i in drop <==> i in drop')
    ensures Kept(n, drop) == Kept(n, drop')
  {
    if n > 0 {
      KeptSame(n - 1, drop, drop');
    }
  }

  /**
   Deleting one key is refused exactly for an index that is none and for the last key; deleting the
   auto-disabled ones does nothing exactly when there are none, and otherwise counts them. A refused
   action stores nothing.
  */
  lemma DeletionsAnswer(r: Record, index: int, parse: Parser)
    requires r.size == |GetKeys(r.text, parse)|
    ensures var (one, reply) := DeleteStoredKey(r, index, parse);
      && reply == (if index < 0 || index >= r.size then OutOfRange else if r.size == 1 then LastKey else Done(1))
      && (reply != Done(1) ==> one == r)
    ensures var (all, reply) := DeleteStoredDisabled(r, parse);
      var n := |set i | 0 <= i < r.size && i in r.status && r.status[i] == AUTO_DISABLED|;
      && reply == (if n == 0 then NothingToDo else Done(n))
      && (n == 0 ==> all == r)
  {
    var c := Load(r, parse);
    KeptCount(|c.keys|, AutoDisabled(c));
    assert AutoDisabled(c) == set i | 0 <= i < r.size && i in r.status && r.status[i] == AUTO_DISABLED;
    if 0 <= index < r.size {
      KeptCount(|c.keys|, {index});
    }
  }

  // ----- What the administrator sees

  /** One line of the get_key_status reply; time and reason are shown for disabled keys only. */
  datatype KeyStatus = KeyStatus(index: int, status: int, time: int, reason: string, preview: string)

  function Preview(key: string): string {
    if |key| > 10 then key[..10] + "..." else key
  }

  function View(c: Keys, i: int): KeyStatus
    requires 0 <= i < |c.keys|
  {
    var st := Status(c, i);
    KeyStatus(i, st,
      if st != ENABLED && i in c.time then c.time[i] else 0,
      if st != ENABLED && i in c.reason then c.reason[i] else "",
      Preview(c.keys[i]))
  }

  /** A preview shows at most ten characters of a key, and marks that there are more. */
  lemma PreviewIsShort(key: string)
    ensures |Preview(key)| <= 13
    ensures if |key| <= 10 then Preview(key) == key else Preview(key)[..10] == key[..10] && Preview(key)[10..] == "..."
  {
  }

  /** Time and reason stand beside the keys that are disabled, and only there. */
  lemma LineShows(c: Keys, i: int)
    requires 0 <= i < |c.keys|
    ensures var line := View(c, i);
      && line.index == i && line.status == (if i in c.status then c.status[i] else ENABLED)
      && (line.status == ENABLED ==> line.time == 0 && line.reason == "")
      && (line.status != ENABLED && i in c.time ==> line.time == c.time[i])
      && (line.status != ENABLED && i in c.reason ==> line.reason == c.reason[i])
  {
  }

  /**
   Deleting keys, either way and whatever the maps hold, keeps the order of the survivors, and each
   of them shows the same status, time and reason under its new index when the channel is loaded
   again, exactly when the remaining keys come back from the store.
  */
  lemma SurvivorsKeepTheirStatus(r: Record, index: int, parse: Parser)
    ensures var (c, kept) := (Load(r, parse), Kept(|GetKeys(r.text, parse)|, {index}));
      var (one, reply) := DeleteStoredKey(r, index, parse);
      reply.Done? ==> (Survived(c, Load(one, parse), kept) <==> Storable(Pick(c.keys, kept), parse))
    ensures var (c, kept) := (Load(r, parse), Kept(|GetKeys(r.text, parse)|, AutoDisabled(Load(r, parse))));
      var (all, reply) := DeleteStoredDisabled(r, parse);
      reply.Done? ==> (Survived(c, Load(all, parse), kept) <==> Storable(Pick(c.keys, kept), parse))
  {
    var c := Load(r, parse);
    StoredSurvive(c, Kept(|c.keys|, {index}), AllEntries(c, Kept(|c.keys|, {index})), parse);
    StoredSurvive(c, Kept(|c.keys|, AutoDisabled(c)), DisabledEntries(c, Kept(|c.keys|, AutoDisabled(c))), parse);
  }

  lemma StoredSurvive(c: Keys, kept: seq<int>, e: Entries, parse: Parser)
    requires forall j :: 0 <= j < |kept| ==> 0 <= kept[j] < |c.keys|
    requires e == AllEntries(c, kept) || e == DisabledEntries(c, kept)
    ensures Survived(c, Load(Store(WithEntries(Pick(c.keys, kept), e), parse), parse), kept)
      <==> Storable(Pick(c.keys, kept), parse)
  {
    var d := WithEntries(Pick(c.keys, kept), e);
    StoredKeysReadBack(d.keys, parse);
    if Storable(d.keys, parse) {
      BelowAll(d.status, d.size);
      BelowAll(d.time, d.size);
      BelowAll(d.reason, d.size);
      assert Load(Store(d, parse), parse) == d;
      CompactedSurvive(c, kept, e);
    }
  }

  lemma CompactedSurvive(c: Keys, kept: seq<int>, e: Entries)
    requires forall j :: 0 <= j < |kept| ==> 0 <= kept[j] < |c.keys|
    requires e == AllEntries(c, kept) || e == DisabledEntries(c, kept)
    ensures Survived(c, WithEntries(Pick(c.keys, kept), e), kept)
  {
  }

  // ----- Appending to the stored channel

  /** The keys of `c` are the first ones of `c'`, each with the same line in the status list. */
  predicate Extends(c: Keys, c': Keys, added: seq<string>) {
    && c'.keys == c.keys + added && c'.size == |c'.keys|
    && forall i :: 0 <= i < |c.keys| ==> View(c', i) == View(c, i)
  }

  /**
   After an append every old key shows the same status, time and reason at its old index when the
   channel is loaded again, with the new keys behind, exactly when the whole list comes back from
   the store; and a channel stored with some key has no left-over entries that disable a new one.
  */
  lemma AppendKeepsStatus(r: Record, input: string, parse: Parser)
    requires r.text != "" && TrimSpace(input) != ""
    requires LooksLikeArray(r.text) ==> parse(TrimSpace(r.text)).Some?
    ensures var (c, c') := (Load(r, parse), Load(AppendStored(r, input, parse), parse));
      var added := Fresh(c.keys, Split(input, '\n'));
      && (Extends(c, c', added) <==> Storable(c.keys + added, parse))
      && (Extends(c, c', added) && r == Synced(r, parse) && c.keys != [] ==>
            forall i :: |c.keys| <= i < |c'.keys| ==> Status(c', i) == ENABLED)
  {
    AppendSeesChannelKeys(r.text, parse);
    ExtendsIff(r, Fresh(GetKeys(r.text, parse), Split(input, '\n')), parse);
    if r == Synced(r, parse) && GetKeys(r.text, parse) != [] {
      SyncedBelow(r, parse);
    }
  }

  /** Blank input stores nothing; a channel without a key text takes the input as it is, and drops the entries behind
      the keys it now has. */
  lemma AppendElsewhere(r: Record, input: string, parse: Parser)
    ensures TrimSpace(input) == "" ==> AppendStored(r, input, parse) == r
    ensures TrimSpace(input) != "" && r.text == "" ==>
      var r' := AppendStored(r, input, parse);
      && Load(r', parse).keys == GetKeys(input, parse) && r'.size == CountKeys(input, parse)
      && forall i :: if i < r'.size then SameEntry(r.status, r'.status, i) else i !in r'.status
  {
  }

  /** The channel stored with the keys of `r` and more behind them. */
  function Extended(r: Record, added: seq<string>, parse: Parser): Record {
    Synced(r.(text := Join(GetKeys(r.text, parse) + added, '\n')), parse)
  }

  lemma ExtendsIff(r: Record, added: seq<string>, parse: Parser)
    ensures var (c, c') := (Load(r, parse), Load(Extended(r, added, parse), parse));
      && (Extends(c, c', added) <==> Storable(c.keys + added, parse))
      && forall i :: Status(c', i) == Status(c, i) || Status(c', i) == ENABLED
  {
    StoredKeysReadBack(GetKeys(r.text, parse) + added, parse);
  }

  /** The entries of a stored channel that has a key lie below the number of its keys. */
  lemma SyncedBelow(r: Record, parse: Parser)
    requires r == Synced(r, parse) && GetKeys(r.text, parse) != []
    ensures forall i :: i in r.status ==> i < |GetKeys(r.text, parse)|
  {
    assert r.status == Below(r.status, CountKeys(r.text, parse));
  }

  // ----- A blank line among the keys

  /** The text of the keys a, an empty one, and b. */
  const WITH_BLANK: string := "a\n\nb"

  lemma BlankIsKey(parse: Parser)
    ensures GetKeys(WITH_BLANK, parse) == ["a", "", "b"]
    ensures GetKeys("\nb", parse) == ["b"] && CountKeys("\nb", parse) == 1
    ensures GetKeys("a\n", parse) == ["a"] && CountKeys("a\n", parse) == 1
    ensures Join(["", "b"], '\n') == "\nb" && Join(["a", ""], '\n') == "a\n"
  {
    TrimmedIsKept(WITH_BLANK, SPACES);
    TrimmedIsKept(WITH_BLANK, {'\n'});
    SplitAtSeparator("a", "\nb", '\n');
    SplitAtSeparator("", "b", '\n');
    SplitPlain("b", '\n');
    assert WITH_BLANK == "a" + ['\n'] + "\nb" && "\nb" == "" + ['\n'] + "b";
    OneLine("\nb", "b", parse);
    OneLine("a\n", "a", parse);
  }

  lemma OneLine(text: string, key: string, parse: Parser)
    requires |key| == 1 && key[0] !in SPACES && key[0] != '[' && (text == "\n" + key || text == key + "\n")
    ensures GetKeys(text, parse) == [key] && CountKeys(text, parse) == 1
  {
    if text == "\n" + key {
      assert text[1..] == key && TrimLeft(text, SPACES) == key && TrimLeft(text, {'\n'}) == key;
    } else {
      assert text[..1] == key && TrimLeft(text, SPACES) == text && TrimLeft(text, {'\n'}) == text;
    }
    TrimmedIsKept(key, SPACES);
    TrimmedIsKept(key, {'\n'});
    SplitPlain(key, '\n');
  }

  /** Deleting the first of these keys enables the last one, which was disabled. */
  lemma DisabledKeyComesBack(r: Record, parse: Parser)
    requires r == Record(WITH_BLANK, 3, map[2 := MANUAL_DISABLED], map[], map[])
    ensures var (one, reply) := DeleteStoredKey(r, 0, parse);
      reply.Done? && Load(one, parse).keys == ["b"] && Status(Load(one, parse), 0) == ENABLED
  {
    BlankIsKey(parse);
    AllButOne(3, 0);
    assert Pick(["a", "", "b"], Kept(3, {0})) == ["", "b"];
  }

  /** With the first and the last auto-disabled, one action leaves no key, the other refuses to delete the last. */
  lemma BlankKeyLosesTrack(r: Record, parse: Parser)
    requires r == Record(WITH_BLANK, 3, map[0 := AUTO_DISABLED, 2 := AUTO_DISABLED], map[], map[])
    ensures GetKeys(DeleteStoredDisabled(r, parse).0.text, parse) == []
    ensures GetKeys(DeleteDownTo(r, 0, parse).text, parse) == ["a"]
  {
    BlankIsKey(parse);
    var drop := AutoDisabled(Load(r, parse));
    assert Kept(1, drop) == [] && Kept(2, drop) == [1] && Kept(3, drop) == [1];
    assert Pick(["a", "", "b"], [1]) == [""];
    BlankKeyStepByStep(r, parse);
  }

  lemma BlankKeyStepByStep(r: Record, parse: Parser)
    requires r == Record(WITH_BLANK, 3, map[0 := AUTO_DISABLED, 2 := AUTO_DISABLED], map[], map[])
    ensures GetKeys(DeleteDownTo(r, 0, parse).text, parse) == ["a"]
  {
    BlankIsKey(parse);
    AllButOne(3, 2);
    assert Pick(["a", "", "b"], Kept(3, {2})) == ["a", ""];
    AllButOne(1, 0);
    var last := DeleteDownTo(r, 2, parse);
    assert DeleteDownTo(r, 3, parse) == r;
    assert last.text == "a\n" && last.size == 1;
    assert DeleteDownTo(r, 1, parse) == last;
    assert DeleteStoredKey(last, 0, parse).0 == last;
  }

  predicate Survived(c: Keys, c': Keys, kept: seq<int>)
    requires forall j :: 0 <= j < |kept| ==> 0 <= kept[j] < |c.keys|
  {
    && c'.keys == Pick(c.keys, kept) && c'.size == |c'.keys|
    && forall j :: 0 <= j < |kept| ==> View(c', j) == View(c, kept[j]).(index := j)
  }

  // ----- Paging through the status list

  const DEFAULT_PAGE_SIZE := 50

  datatype StatusPage = StatusPage(
    lines: seq<KeyStatus>, total: nat, page: int, pageSize: int, totalPages: int,
    enabled: nat, manual: nat, auto: nat)

  function Lines(c: Keys, n: nat): seq<KeyStatus>
    requires n <= |c.keys|
  {
    seq(n, i requires 0 <= i < n => View(c, i))
  }

  function WithStatus(lines: seq<KeyStatus>, status: Option<int>): seq<KeyStatus> {
    if status.None? then lines
    else if lines == [] then []
    else
      var n := |lines| - 1;
      WithStatus(lines[..n], status) + if lines[n].status == status.value then [lines[n]] else []
  }

  function TotalPages(total: nat, size: nat): nat
    requires size > 0
  {
    var pages := (total + size - 1) / size;
    if pages == 0 then 1 else pages
  }

  /** The lines of page `page`, counted from 1. */
  function PageLines(list: seq<KeyStatus>, page: nat, size: nat): seq<KeyStatus>
    requires page > 0 && size > 0
  {
    var start := (page - 1) * size;
    var end := if start + size > |list| then |list| else start + size;
    if start < |list| then list[start..end] else []
  }

  method CountStatuses(c: Keys) returns (all: seq<KeyStatus>, enabled: nat, manual: nat, auto: nat)
    ensures all == Lines(c, |c.keys|)
    ensures enabled == |WithStatus(all, Some(ENABLED))|
    ensures manual == |WithStatus(all, Some(MANUAL_DISABLED))|
    ensures auto == |WithStatus(all, Some(AUTO_DISABLED))|
  {
    all, enabled, manual, auto := [], 0, 0, 0;
    for i := 0 to |c.keys|
      invariant all == Lines(c, i)
      invariant enabled == |WithStatus(all, Some(ENABLED))|
      invariant manual == |WithStatus(all, Some(MANUAL_DISABLED))|
      invariant auto == |WithStatus(all, Some(AUTO_DISABLED))|
    {
      var line := View(c, i);
      match line.status {
        case 1 => enabled := enabled + 1;
        case 2 => manual := manual + 1;
        case 3 => auto := auto + 1;
        case _ =>
      }
      assert (all + [line])[..|all|] == all;
      all := all + [line];
    }
  }

  method FilterLines(all: seq<KeyStatus>, status: int) returns (filtered: seq<KeyStatus>)
    ensures filtered == WithStatus(all, Some(status))
  {
    filtered := [];
    for k := 0 to |all|
      invariant filtered == WithStatus(all[..k], Some(status))
    {
      assert all[..k + 1][..k] == all[..k];
      if all[k].status == status {
        filtered := filtered + [all[k]];
      }
    }
    assert all[..|all|] == all;
  }

  /** The get_key_status action: filter, count, clamp the page and cut it out. */
  method GetKeyStatus(c: Keys, status: Option<int>, page: int, pageSize: int) returns (r: StatusPage)
    ensures r.pageSize == (if pageSize <= 0 then DEFAULT_PAGE_SIZE else pageSize)
    ensures r.total == |WithStatus(Lines(c, |c.keys|), status)| && r.totalPages == TotalPages(r.total, r.pageSize)
    ensures r.page == (if page <= 0 then 1 else if page > r.totalPages then r.totalPages else page)
    ensures r.lines == PageLines(WithStatus(Lines(c, |c.keys|), status), r.page, r.pageSize)
    ensures r.enabled == |WithStatus(Lines(c, |c.keys|), Some(ENABLED))|
    ensures r.manual == |WithStatus(Lines(c, |c.keys|), Some(MANUAL_DISABLED))|
    ensures r.auto == |WithStatus(Lines(c, |c.keys|), Some(AUTO_DISABLED))|
  {
    var page, pageSize := if page <= 0 then 1 else page, if pageSize <= 0 then DEFAULT_PAGE_SIZE else pageSize;
    var all, enabled, manual, auto := CountStatuses(c);
    var filtered := all;
    if status.Some? {
      filtered := FilterLines(all, status.value);
    }
    var total := |filtered|;
    var totalPages := TotalPages(total, pageSize);
    if page > totalPages {
      page := totalPages;
    }
    r := StatusPage(PageLines(filtered, page, pageSize), total, page, pageSize, totalPages, enabled, manual, auto);
  }

  /** A filtered list holds the lines with the status, and no others, in their order. */
  lemma {:induction false} WithStatusKeeps(lines: seq<KeyStatus>, status: int)
    requires forall i, j :: 0 <= i < j < |lines| ==> lines[i].index < lines[j].index
    ensures var kept := WithStatus(lines, Some(status));
      && (forall line :: line in kept <==> line in lines && line.status == status)
      && (forall i, j :: 0 <= i < j < |kept| ==> kept[i].index < kept[j].index)
  {
    if lines != [] {
      var n := |lines| - 1;
      WithStatusKeeps(lines[..n], status);
      assert lines == lines[..n] + [lines[n]];
      assert forall line :: line in lines[..n] ==> line.index < lines[n].index;
    }
  }

  /** Every page before the last one is full, and the last one holds a line unless there is none at all. */
  lemma PagesAreFilled(list: seq<KeyStatus>, page: nat, size: nat)
    requires size > 0 && 0 < page <= TotalPages(|list|, size)
    ensures page < TotalPages(|list|, size) ==> |PageLines(list, page, size)| == size
    ensures page == TotalPages(|list|, size) && list != [] ==> 0 < |PageLines(list, page, size)| <= size
    ensures list == [] ==> TotalPages(|list|, size) == 1 && PageLines(list, page, size) == []
  {
    NoSparePages(|list|, size);
    var total := TotalPages(|list|, size);
    PagesBefore(page, total, size);
    EnoughPages(|list|, size);
    if list == [] {
      assert (0 + size - 1) / size == 0;
    }
  }

  lemma NoSparePages(total: nat, size: nat)
    requires size > 0
    ensures total > 0 ==> (TotalPages(total, size) - 1) * size < total
  {
    var n := total + size - 1;
    var q, r := n / size, n % size;
    assert n == q * size + r && r < size;
    assert (q - 1) * size == q * size - size;
  }

  lemma {:induction false} PagesBefore(page: nat, total: nat, size: nat)
    requires 0 < page <= total
    ensures (page - 1) * size <= (total - 1) * size
    ensures page < total ==> (page - 1) * size + size <= (total - 1) * size
    ensures page == total ==> (page - 1) * size + size == total * size
  {
    OnePageMore(total - 1, size);
    if page < total {
      PagesBefore(page, total - 1, size);
    }
  }

  lemma OnePageMore(n: nat, size: nat)
    ensures n * size + size == (n + 1) * size
  {
  }

  function FirstPages(list: seq<KeyStatus>, n: nat, size: nat): seq<KeyStatus>
    requires size > 0
  {
    if n == 0 then [] else FirstPages(list, n - 1, size) + PageLines(list, n, size)
  }

  lemma {:induction false} FirstPagesAre(list: seq<KeyStatus>, n: nat, size: nat)
    requires size > 0
    ensures FirstPages(list, n, size) == if n * size < |list| then list[..n * size] else list
  {
    if n == 0 {
      assert 0 * size == 0;
    } else {
      FirstPagesAre(list, n - 1, size);
      OnePageMore(n - 1, size);
      OneMorePage(list, n, size, (n - 1) * size);
    }
  }

  lemma OneMorePage(list: seq<KeyStatus>, n: nat, size: nat, start: nat)
    requires n > 0 && size > 0 && start == (n - 1) * size
    ensures (if start < |list| then list[..start] else list) + PageLines(list, n, size)
         == if start + size < |list| then list[..start + size] else list
  {
  }

  /** The pages laid end to end are the whole list: every line is on exactly one page, in order. */
  lemma PagesCoverList(list: seq<KeyStatus>, size: nat)
    requires size > 0
    ensures FirstPages(list, TotalPages(|list|, size), size) == list
  {
    FirstPagesAre(list, TotalPages(|list|, size), size);
    EnoughPages(|list|, size);
  }

  lemma EnoughPages(total: nat, size: nat)
    requires size > 0
    ensures TotalPages(total, size) * size >= total
  {
    var n := total + size - 1;
    var q, r := n / size, n % size;
    assert n == q * size + r && r < size;
  }
}
