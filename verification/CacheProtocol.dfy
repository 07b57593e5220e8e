/**
 The cache protocol around the generation fence (common/redis.go): every interleaving of any
 number of readers (take a generation, read the row, WATCH, GET, EXEC) and writers (commit a
 row, then invalidate or delete the cached hash, possibly more than once or never).
*/
module CacheProtocol {
  import opened Options
  import opened RedisFence

  /** A reader's progress: `v` its generation, `seen` the commit its snapshot `data` was taken at. */
  datatype Reader =
    | Versioned(e: Entity, v: nat)
    | Loaded(e: Entity, v: nat, seen: nat, data: Row)
    | Watching(e: Entity, v: nat, seen: nat, data: Row)
    | Checked(e: Entity, v: nat, seen: nat, data: Row)
    | Finished(e: Entity, v: nat, stored: bool)

  /** A writer of commit number `at`; settled once an invalidation or deletion it issued is done. */
  datatype Writer = Writer(e: Entity, at: nat, settled: bool)

  /** `db` holds each entity's committed rows in order; None is a row that does not exist. */
  datatype World = World(
    ks: Keyspace,
    db: map<Entity, seq<Option<Row>>>,
    readers: map<nat, Reader>,
    writers: map<nat, Writer>)

  datatype Event =
    | GetVersion(r: nat, e: Entity)
    | ReadRow(r: nat, fields: set<Field>)
    | WatchVersion(r: nat)
    | CheckVersion(r: nat)
    | ExecRefill(r: nat)
    | Commit(wr: nat, e: Entity, row: Option<Row>)
    | InvalidateHash(wr: nat)
    | DeleteHash(wr: nat)
    | ExpireHash(e: Entity)

  function History(w: World, e: Entity): (h: seq<Option<Row>>)
    ensures |h| > 0
  {
    if e in w.db && w.db[e] != [] then w.db[e] else [None]
  }

  predicate Enabled(w: World, ev: Event) {
    match ev
    case GetVersion(r, _) => r !in w.readers
    case ReadRow(r, _) => r in w.readers && w.readers[r].Versioned?
    case WatchVersion(r) => r in w.readers && w.readers[r].Loaded?
    case CheckVersion(r) => r in w.readers && w.readers[r].Watching?
    case ExecRefill(r) => r in w.readers && w.readers[r].Checked? && r in w.ks.watches
    case Commit(wr, _, _) => wr !in w.writers
    case InvalidateHash(wr) => wr in w.writers
    case DeleteHash(wr) => wr in w.writers
    case ExpireHash(_) => true
  }

  function Next(w: World, ev: Event): World
    requires Enabled(w, ev)
  {
    match ev
    case GetVersion(r, e) =>
      var (ks, v) := GetOrInit(w.ks, e);
      w.(ks := ks, readers := w.readers[r := Versioned(e, v)])
    case ReadRow(r, fields) =>
      var e, v := w.readers[r].e, w.readers[r].v;
      var h := History(w, e);
      var last := h[|h| - 1];
      w.(readers := w.readers[r :=
          if last.None? then Finished(e, v, false)
          else Loaded(e, v, |h| - 1, map f | f in fields && f in last.value :: last.value[f])])
    case WatchVersion(r) =>
      var Loaded(e, v, seen, data) := w.readers[r];
      w.(ks := BeginWatch(w.ks, r, e), readers := w.readers[r := Watching(e, v, seen, data)])
    case CheckVersion(r) =>
      var Watching(e, v, seen, data) := w.readers[r];
      if ReadVersion(w.ks, e) != v then w.(ks := EndWatch(w.ks, r), readers := w.readers[r := Finished(e, v, false)])
      else w.(readers := w.readers[r := Checked(e, v, seen, data)])
    case ExecRefill(r) =>
      var Checked(e, v, seen, data) := w.readers[r];
      var (ks, stored) := Exec(w.ks, r, e, data);
      w.(ks := ks, readers := w.readers[r := Finished(e, v, stored)])
    case Commit(wr, e, row) =>
      w.(db := w.db[e := History(w, e) + [row]],
         writers := w.writers[wr := Writer(e, |History(w, e)|, false)])
    case InvalidateHash(wr) =>
      var x := w.writers[wr];
      w.(ks := Invalidate(w.ks, x.e), writers := w.writers[wr := x.(settled := true)])
    case DeleteHash(wr) =>
      var x := w.writers[wr];
      w.(ks := Delete(w.ks, x.e), writers := w.writers[wr := x.(settled := true)])
    case ExpireHash(e) =>
      w.(ks := Perform(w.ks, CmdExpire(e)))
  }

  // ----- Runs

  /** Any legacy markers and sequence are allowed; what is cached agrees with the initial rows. */
  ghost predicate Init(w: World) {
    && w.readers == map[] && w.writers == map[] && w.ks.watches == map[]
    && (forall e :: |History(w, e)| == 1)
    && (forall e, f :: Cached(w, e, f) ==> HoldsFrom(w, e, f, 0))
  }

  ghost predicate IsRun(ws: seq<World>, evs: seq<Event>) {
    && |ws| == |evs| + 1
    && Init(ws[0])
    && forall i {:trigger evs[i]} :: 0 <= i < |evs| ==> Enabled(ws[i], evs[i]) && ws[i + 1] == Next(ws[i], evs[i])
  }

  predicate Leads(w: World, evs: seq<Event>, end: World)
    decreases |evs|
  {
    if evs == [] then end == w else Enabled(w, evs[0]) && Leads(Next(w, evs[0]), evs[1..], end)
  }

  predicate Cached(w: World, e: Entity, f: Field) {
    e in w.ks.hashes && f in w.ks.hashes[e]
  }

  /** The cached field has the value commit `i` gave it. */
  predicate HoldsFrom(w: World, e: Entity, f: Field, i: nat)
    requires Cached(w, e, f)
  {
    var h := History(w, e);
    i < |h| && h[i].Some? && f in h[i].value && h[i].value[f] == w.ks.hashes[e][f]
  }

  /** Commit `i` is no older than any commit whose invalidation has completed. */
  ghost predicate AfterSettled(w: World, e: Entity, i: nat) {
    forall wr :: wr in w.writers && w.writers[wr].e == e && w.writers[wr].settled ==> w.writers[wr].at <= i
  }

  ghost predicate SnapshotOf(w: World, e: Entity, seen: nat, data: Row) {
    var h := History(w, e);
    && seen < |h| && h[seen].Some?
    && forall f :: f in data ==> f in h[seen].value && h[seen].value[f] == data[f]
  }

  // ----- The invariant

  ghost predicate ReaderOk(w: World, r: nat)
    requires r in w.readers
  {
    var x := w.readers[r];
    && (!x.Finished? ==> Issued(w.ks, x.e, x.v))
    && (x.Loaded? || x.Watching? || x.Checked? ==>
          && SnapshotOf(w, x.e, x.seen, x.data)
          && (ReadVersion(w.ks, x.e) == x.v ==> AfterSettled(w, x.e, x.seen)))
    && (x.Watching? || x.Checked? ==> WatchFences(w.ks, r, x.e, x.v))
    && (x.Checked? ==> WatchHolds(w.ks, r, x.e, x.v))
  }

  ghost predicate CellOk(w: World, e: Entity, f: Field)
    requires Cached(w, e, f)
  {
    exists i: nat :: HoldsFrom(w, e, f, i) && AfterSettled(w, e, i)
  }

  ghost predicate Written(w: World, e: Entity, i: nat) {
    exists wr :: wr in w.writers && w.writers[wr].e == e && w.writers[wr].at == i
  }

  /** Every writer made one of the commits of its entity, and every commit has a writer. */
  ghost predicate WritersOk(w: World) {
    && (forall wr :: wr in w.writers ==> w.writers[wr].at < |History(w, w.writers[wr].e)|)
    && (forall e, i: nat :: 1 <= i < |History(w, e)| ==> Written(w, e, i))
  }

  ghost predicate Inv(w: World) {
    && (forall r :: r in w.readers ==> ReaderOk(w, r))
    && WritersOk(w)
    && (forall e, f :: Cached(w, e, f) ==> CellOk(w, e, f))
  }

  /** The keyspace part of every step is a command, a watch bookkeeping step or a plain HSET. */
  lemma StepKeepsGenerations(w: World, ev: Event, e: Entity, v: int)
    requires Enabled(w, ev)
    requires Issued(w.ks, e, v)
    ensures Issued(Next(w, ev).ks, e, v)
    ensures Retired(w.ks, e, v) ==> Retired(Next(w, ev).ks, e, v)
  {
  }

  lemma InitInv(w: World)
    requires Init(w)
    ensures Inv(w)
  {
    forall e, f | Cached(w, e, f)
      ensures CellOk(w, e, f)
    {
      assert HoldsFrom(w, e, f, 0) && AfterSettled(w, e, 0);
    }
  }

  lemma SnapshotKept(w: World, ev: Event, e: Entity, seen: nat, data: Row)
    requires Enabled(w, ev) && SnapshotOf(w, e, seen, data)
    ensures SnapshotOf(Next(w, ev), e, seen, data)
  {
    assert History(Next(w, ev), e)[seen] == History(w, e)[seen];
  }

  /** A new commit is not settled, and settling one moves the entity off generation `v`. */
  lemma FenceKept(w: World, ev: Event, e: Entity, v: nat, seen: nat)
    requires Enabled(w, ev) && Issued(w.ks, e, v)
    requires ReadVersion(w.ks, e) == v ==> AfterSettled(w, e, seen)
    ensures ReadVersion(Next(w, ev).ks, e) == v ==> AfterSettled(Next(w, ev), e, seen)
  {
    StepKeepsGenerations(w, ev, e, v);
    if ReadVersion(Next(w, ev).ks, e) == v && (ev.InvalidateHash? || ev.DeleteHash?) {
      assert w.writers[ev.wr].e != e;
    }
  }

  lemma WatchKept(w: World, ev: Event, r: nat, e: Entity, v: nat)
    requires Enabled(w, ev) && WatchFences(w.ks, r, e, v)
    requires ev.WatchVersion? || ev.CheckVersion? || ev.ExecRefill? ==> ev.r != r
    ensures WatchFences(Next(w, ev).ks, r, e, v)
    ensures WatchHolds(w.ks, r, e, v) ==> WatchHolds(Next(w, ev).ks, r, e, v)
  {
  }

  lemma WaitingReaderKept(w: World, ev: Event, r: nat)
    requires Enabled(w, ev) && r in w.readers && ReaderOk(w, r)
    requires r in Next(w, ev).readers && Next(w, ev).readers[r] == w.readers[r]
    requires ev.WatchVersion? || ev.CheckVersion? || ev.ExecRefill? ==> ev.r != r
    ensures ReaderOk(Next(w, ev), r)
  {
    var x := w.readers[r];
    if !x.Finished? {
      StepKeepsGenerations(w, ev, x.e, x.v);
      if !x.Versioned? {
        SnapshotKept(w, ev, x.e, x.seen, x.data);
        FenceKept(w, ev, x.e, x.v, x.seen);
      }
      if x.Watching? || x.Checked? {
        WatchKept(w, ev, r, x.e, x.v);
      }
    }
  }

  lemma ActingReaderKept(w: World, ev: Event, r: nat)
    requires Enabled(w, ev) && Inv(w)
    requires (ev.GetVersion? || ev.ReadRow? || ev.WatchVersion? || ev.CheckVersion? || ev.ExecRefill?) && ev.r == r
    ensures ReaderOk(Next(w, ev), r)
  {
    if !ev.GetVersion? {
      assert ReaderOk(w, r);
    }
  }

  lemma ReadersKept(w: World, ev: Event)
    requires Enabled(w, ev) && Inv(w)
    ensures forall r :: r in Next(w, ev).readers ==> ReaderOk(Next(w, ev), r)
  {
    forall r | r in Next(w, ev).readers
      ensures ReaderOk(Next(w, ev), r)
    {
      if (ev.GetVersion? || ev.ReadRow? || ev.WatchVersion? || ev.CheckVersion? || ev.ExecRefill?) && ev.r == r {
        ActingReaderKept(w, ev, r);
      } else {
        WaitingReaderKept(w, ev, r);
      }
    }
  }

  lemma WritersKept(w: World, ev: Event)
    requires Enabled(w, ev) && WritersOk(w)
    ensures WritersOk(Next(w, ev))
  {
    var n := Next(w, ev);
    forall e, i: nat | 1 <= i < |History(n, e)|
      ensures Written(n, e, i)
    {
      if i < |History(w, e)| {
        assert Written(w, e, i);
        var wr :| wr in w.writers && w.writers[wr].e == e && w.writers[wr].at == i;
        assert wr in n.writers && n.writers[wr].e == e && n.writers[wr].at == i;
      } else {
        assert n.writers[ev.wr].e == e && n.writers[ev.wr].at == i;
      }
    }
  }

  lemma CellsKept(w: World, ev: Event)
    requires Enabled(w, ev) && Inv(w)
    ensures forall e, f :: Cached(Next(w, ev), e, f) ==> CellOk(Next(w, ev), e, f)
  {
    var n := Next(w, ev);
    forall e, f | Cached(n, e, f)
      ensures CellOk(n, e, f)
    {
      if ev.ExecRefill? && e == w.readers[ev.r].e && n.readers[ev.r].stored && f in w.readers[ev.r].data {
        assert ReaderOk(w, ev.r);
        var seen := w.readers[ev.r].seen;
        assert HoldsFrom(n, e, f, seen) && AfterSettled(n, e, seen);
      } else {
        assert Cached(w, e, f) && CellOk(w, e, f);
        var i: nat :| HoldsFrom(w, e, f, i) && AfterSettled(w, e, i);
        assert HoldsFrom(n, e, f, i) && AfterSettled(n, e, i);
      }
    }
  }

  lemma StepInv(w: World, ev: Event)
    requires Enabled(w, ev) && Inv(w)
    ensures Inv(Next(w, ev))
  {
    ReadersKept(w, ev);
    WritersKept(w, ev);
    CellsKept(w, ev);
  }

  lemma {:induction false} RunInv(ws: seq<World>, evs: seq<Event>, i: nat)
    requires IsRun(ws, evs) && i < |ws|
    ensures Inv(ws[i])
  {
    if i == 0 {
      InitInv(ws[0]);
    } else {
      RunInv(ws, evs, i - 1);
      StepInv(ws[i - 1], evs[i - 1]);
    }
  }

  // ----- What the fence promises

  /**
   Freshness: in every run, a cached field carries the value of a commit no older than any commit
   whose invalidation (or deletion) has completed.
  */
  lemma CachedFieldsAreFresh(ws: seq<World>, evs: seq<Event>, t: nat, e: Entity, f: Field)
    requires IsRun(ws, evs) && t < |ws| && Cached(ws[t], e, f)
    ensures exists i: nat :: HoldsFrom(ws[t], e, f, i) &&
              forall wr :: wr in ws[t].writers && ws[t].writers[wr].e == e && ws[t].writers[wr].settled
                ==> ws[t].writers[wr].at <= i
  {
    RunInv(ws, evs, t);
    assert CellOk(ws[t], e, f);
    var i: nat :| HoldsFrom(ws[t], e, f, i) && AfterSettled(ws[t], e, i);
  }

  /** Once every writer of an entity has invalidated, the cache can only show the current row. */
  lemma QuiescentCacheEqualsDatabase(ws: seq<World>, evs: seq<Event>, t: nat, e: Entity, f: Field)
    requires IsRun(ws, evs) && t < |ws| && Cached(ws[t], e, f)
    requires forall wr :: wr in ws[t].writers && ws[t].writers[wr].e == e ==> ws[t].writers[wr].settled
    ensures HoldsFrom(ws[t], e, f, |History(ws[t], e)| - 1)
  {
    RunInv(ws, evs, t);
    assert CellOk(ws[t], e, f);
    var i: nat :| HoldsFrom(ws[t], e, f, i) && AfterSettled(ws[t], e, i);
    var last := |History(ws[t], e)| - 1;
    assert last == 0 || Written(ws[t], e, last);
  }

  lemma GenerationStep(ws: seq<World>, evs: seq<Event>, e: Entity, v: int, i: nat)
    requires IsRun(ws, evs) && i < |evs| && Issued(ws[i].ks, e, v)
    ensures Issued(ws[i + 1].ks, e, v)
    ensures Retired(ws[i].ks, e, v) ==> Retired(ws[i + 1].ks, e, v)
  {
    StepKeepsGenerations(ws[i], evs[i], e, v);
  }

  lemma {:induction false} RetiredForGood(ws: seq<World>, evs: seq<Event>, e: Entity, v: int, i: nat, j: nat)
    requires IsRun(ws, evs) && i <= j < |ws|
    requires Retired(ws[i].ks, e, v)
    ensures Retired(ws[j].ks, e, v)
  {
    if i < j {
      RetiredForGood(ws, evs, e, v, i, j - 1);
      GenerationStep(ws, evs, e, v, j - 1);
    }
  }

  lemma {:induction false} IssuedForGood(ws: seq<World>, evs: seq<Event>, e: Entity, v: int, i: nat, j: nat)
    requires IsRun(ws, evs) && i <= j < |ws|
    requires Issued(ws[i].ks, e, v)
    ensures Issued(ws[j].ks, e, v)
  {
    if i < j {
      IssuedForGood(ws, evs, e, v, i, j - 1);
      GenerationStep(ws, evs, e, v, j - 1);
    }
  }

  /**
   Generations only increase and none is issued twice: if an entity carries `g` at time i and
   something else (or nothing) at time k, then whatever it carries later is larger than `g`.
  */
  lemma GenerationNeverReturns(ws: seq<World>, evs: seq<Event>, e: Entity, i: nat, k: nat, j: nat)
    requires IsRun(ws, evs) && i < k <= j < |ws|
    requires e in ws[i].ks.markers && e in ws[j].ks.markers
    requires ReadVersion(ws[k].ks, e) != ws[i].ks.markers[e]
    ensures ws[i].ks.markers[e] < ws[j].ks.markers[e]
  {
    var g := ws[i].ks.markers[e];
    IssuedForGood(ws, evs, e, g, i, k);
    RetiredForGood(ws, evs, e, g, k, j);
  }

  /** Reader `r` holds the spent generation `v` of `e` and has not stored anything. */
  ghost predicate Fenced(w: World, r: nat, e: Entity, v: nat) {
    && r in w.readers && w.readers[r].e == e && w.readers[r].v == v
    && Retired(w.ks, e, v)
    && (w.readers[r].Finished? ==> !w.readers[r].stored)
  }

  lemma FencedStays(w: World, ev: Event, r: nat, e: Entity, v: nat)
    requires Enabled(w, ev) && Inv(w) && Fenced(w, r, e, v)
    ensures Fenced(Next(w, ev), r, e, v)
  {
    StepKeepsGenerations(w, ev, e, v);
    assert ReaderOk(w, r);
  }

  /**
   A reader that holds a generation from before an invalidation or a deletion never stores,
   however the entity is re-initialised in between.
  */
  lemma {:induction false} OldReadersNeverStore(ws: seq<World>, evs: seq<Event>, i: nat, r: nat, j: nat)
    requires IsRun(ws, evs) && i < |evs| && i < j < |ws|
    requires r in ws[i].readers && !ws[i].readers[r].Finished?
    requires (evs[i].InvalidateHash? || evs[i].DeleteHash?) && ws[i].writers[evs[i].wr].e == ws[i].readers[r].e
    ensures Fenced(ws[j], r, ws[i].readers[r].e, ws[i].readers[r].v)
    decreases j
  {
    if i + 1 == j {
      RunInv(ws, evs, i);
      assert ReaderOk(ws[i], r);
    } else {
      OldReadersNeverStore(ws, evs, i, r, j - 1);
      RunInv(ws, evs, j - 1);
      FencedStays(ws[j - 1], evs[j - 1], r, ws[i].readers[r].e, ws[i].readers[r].v);
    }
  }

  /** Some writer invalidates or deletes the cached hash of the entity. */
  predicate Fences(w: World, ev: Event, e: Entity) {
    (ev.InvalidateHash? || ev.DeleteHash?) && ev.wr in w.writers && w.writers[ev.wr].e == e
  }

  lemma StepKeepsVersion(w: World, ev: Event, e: Entity)
    requires Enabled(w, ev) && e in w.ks.markers && !Fences(w, ev, e)
    ensures ReadVersion(Next(w, ev).ks, e) == ReadVersion(w.ks, e)
  {
  }

  lemma StepKeepsReader(w: World, ev: Event, r: nat)
    requires Enabled(w, ev) && r in w.readers
    ensures var n := Next(w, ev);
      r in n.readers && n.readers[r].e == w.readers[r].e && n.readers[r].v == w.readers[r].v
  {
  }

  lemma VersionStep(ws: seq<World>, evs: seq<Event>, i: nat, e: Entity)
    requires IsRun(ws, evs) && i < |evs| && e in ws[i].ks.markers && !Fences(ws[i], evs[i], e)
    ensures ReadVersion(ws[i + 1].ks, e) == ReadVersion(ws[i].ks, e)
  {
    StepKeepsVersion(ws[i], evs[i], e);
  }

  lemma {:induction false} VersionStands(ws: seq<World>, evs: seq<Event>, i: nat, e: Entity, j: nat)
    requires IsRun(ws, evs) && i <= j < |ws| && e in ws[i].ks.markers
    requires forall m {:trigger Fences(ws[m], evs[m], e)} :: i <= m < j ==> !Fences(ws[m], evs[m], e)
    ensures ReadVersion(ws[j].ks, e) == ReadVersion(ws[i].ks, e)
    decreases j
  {
    if i < j {
      VersionStands(ws, evs, i, e, j - 1);
      assert !Fences(ws[j - 1], evs[j - 1], e);
      VersionStep(ws, evs, j - 1, e);
    }
  }

  /**
   Progress: a reader that holds the current generation of its entity passes its check and stores, as
   long as nobody invalidates or deletes the hash, whatever else happens: other readers taking the
   generation and refilling, commits that are not announced yet, and everything on other entities.
  */
  lemma UndisturbedReaderStores(ws: seq<World>, evs: seq<Event>, i: nat, r: nat, j: nat)
    requires IsRun(ws, evs) && i <= j < |evs| && r in ws[i].readers && !ws[i].readers[r].Finished?
    requires ReadVersion(ws[i].ks, ws[i].readers[r].e) == ws[i].readers[r].v
    requires var e := ws[i].readers[r].e;
      forall m {:trigger Fences(ws[m], evs[m], e)} :: i <= m < j ==> !Fences(ws[m], evs[m], e)
    ensures evs[j] == CheckVersion(r) ==> ws[j + 1].readers[r].Checked?
    ensures evs[j] == ExecRefill(r) ==>
              var x, n := ws[j].readers[r], ws[j + 1];
              n.readers[r] == Finished(x.e, x.v, true)
              && forall f :: f in x.data ==> CachedField(n.ks, x.e, f) == Some(x.data[f])
  {
    var e := ws[i].readers[r].e;
    VersionStands(ws, evs, i, e, j);
    ReaderStays(ws, evs, i, r, j);
    if evs[j] == ExecRefill(r) {
      ExecIsCompareAndStore(ws, evs, j);
    }
  }

  lemma {:induction false} ReaderStays(ws: seq<World>, evs: seq<Event>, i: nat, r: nat, j: nat)
    requires IsRun(ws, evs) && i <= j < |ws| && r in ws[i].readers
    ensures r in ws[j].readers && ws[j].readers[r].e == ws[i].readers[r].e && ws[j].readers[r].v == ws[i].readers[r].v
    decreases j
  {
    if i < j {
      ReaderStays(ws, evs, i, r, j - 1);
      StepKeepsReader(ws[j - 1], evs[j - 1], r);
    }
  }

  lemma LeadsStep(w: World, ev: Event, evs: seq<Event>, end: World)
    requires Enabled(w, ev) && Leads(Next(w, ev), evs, end)
    ensures Leads(w, [ev] + evs, end)
  {
    assert ([ev] + evs)[1..] == evs;
  }

  /** From any world a new reader can run through its steps, and caches the requested fields of the last row. */
  lemma RefillRuns(w: World, r: nat, e: Entity, fields: set<Field>)
    requires r !in w.readers && History(w, e)[|History(w, e)| - 1].Some?
    ensures exists end ::
      Leads(w, [GetVersion(r, e)] + ([ReadRow(r, fields)] + StoreSteps(r)), end)
      && r in end.readers && end.readers[r] == Finished(e, GetOrInit(w.ks, e).1, true)
      && var row := History(w, e)[|History(w, e)| - 1].value;
         forall f :: f in fields && f in row ==> CachedField(end.ks, e, f) == Some(row[f])
  {
    var w1 := Next(w, GetVersion(r, e));
    var w2 := Next(w1, ReadRow(r, fields));
    var end := StoreRuns(w2, r);
    LeadsStep(w1, ReadRow(r, fields), StoreSteps(r), end);
    LeadsStep(w, GetVersion(r, e), [ReadRow(r, fields)] + StoreSteps(r), end);
  }

  function StoreSteps(r: nat): seq<Event> {
    [WatchVersion(r)] + ([CheckVersion(r)] + ([ExecRefill(r)] + []))
  }

  lemma StoreRuns(w: World, r: nat) returns (end: World)
    requires r in w.readers && w.readers[r].Loaded? && ReadVersion(w.ks, w.readers[r].e) == w.readers[r].v
    ensures Leads(w, StoreSteps(r), end)
    ensures var x := w.readers[r];
      r in end.readers && end.readers[r] == Finished(x.e, x.v, true)
      && forall f :: f in x.data ==> CachedField(end.ks, x.e, f) == Some(x.data[f])
  {
    var w1 := Next(w, WatchVersion(r));
    var w2 := Next(w1, CheckVersion(r));
    end := Next(w2, ExecRefill(r));
    LeadsStep(w2, ExecRefill(r), [], end);
    LeadsStep(w1, CheckVersion(r), [ExecRefill(r)] + [], end);
    LeadsStep(w, WatchVersion(r), [CheckVersion(r)] + ([ExecRefill(r)] + []), end);
  }

  /** A writer can commit any row, and then invalidate or delete the hash, which settles the commit; and a hash can
      expire at any time. */
  lemma WriteRuns(w: World, wr: nat, e: Entity, row: Option<Row>, deletes: bool)
    requires wr !in w.writers
    ensures exists end ::
      Leads(w, [Commit(wr, e, row)] + ([if deletes then DeleteHash(wr) else InvalidateHash(wr)] + []), end)
      && History(end, e) == History(w, e) + [row]
      && end.writers == w.writers[wr := Writer(e, |History(w, e)|, true)]
      && forall f :: CachedField(end.ks, e, f) == None
    ensures Leads(w, [ExpireHash(e)], w.(ks := Perform(w.ks, CmdExpire(e))))
  {
    var fence := if deletes then DeleteHash(wr) else InvalidateHash(wr);
    var w1 := Next(w, Commit(wr, e, row));
    var end := Next(w1, fence);
    LeadsStep(w1, fence, [], end);
    LeadsStep(w, Commit(wr, e, row), [fence] + [], end);
    assert end.writers == w.writers[wr := Writer(e, |History(w, e)|, true)];
    assert [ExpireHash(e)][1..] == [];
  }

  /** A reader takes the requested fields, and no others, from the last committed row. */
  lemma ReadsRequestedFields(w: World, r: nat, fields: set<Field>)
    requires Enabled(w, ReadRow(r, fields))
    ensures var x, h := Next(w, ReadRow(r, fields)).readers[r], History(w, w.readers[r].e);
      if h[|h| - 1].None? then x.Finished? && !x.stored
      else x.Loaded? && x.seen == |h| - 1
           && forall f :: (f in x.data <==> f in fields && f in h[|h| - 1].value)
                && (f in x.data ==> x.data[f] == h[|h| - 1].value[f])
  {
  }

  /**
   The WATCH transaction of a run is one atomic compare-and-store: at its EXEC it stores exactly
   when the entity then carries the reader's generation.
  */
  lemma ExecIsCompareAndStore(ws: seq<World>, evs: seq<Event>, t: nat)
    requires IsRun(ws, evs) && t < |evs| && evs[t].ExecRefill?
    ensures var x := ws[t].readers[evs[t].r];
            var (ks, stored) := CompareAndStore(EndWatch(ws[t].ks, evs[t].r), x.e, x.v, x.data);
            ws[t + 1].ks == ks && ws[t + 1].readers[evs[t].r] == Finished(x.e, x.v, stored)
  {
    RunInv(ws, evs, t);
    assert ReaderOk(ws[t], evs[t].r);
  }
}
