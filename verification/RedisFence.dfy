/**
 Cache-aside refills fenced by generations (common/redis.go).

 `Keyspace` is the part of a Redis server the fence lives in. The three Lua scripts and the
 WATCH/MULTI/EXEC commands are functions on it, `Server` performs them in place, and `World`
 runs them inside the whole protocol: any number of processes read the database and refill the
 cache while others commit rows and then invalidate or delete the cached hash.
*/
module RedisFence {
  import opened Options

  type Entity = string
  type Field = string
  type Row = map<Field, string>
  type Connection = nat

  /** What a connection has WATCHed, and whether that key has been written since. */
  datatype Watch = Watch(entity: Entity, dirty: bool)

  /** `markers` are the version keys, `sequence` the shared counter (0 when the key is missing). */
  datatype Keyspace = Keyspace(
    markers: map<Entity, nat>,
    sequence: nat,
    hashes: map<Entity, Row>,
    watches: map<Connection, Watch>)

  // ----- Redis commands and Lua scripts on a keyspace

  /** A write to an entity's version key makes every transaction watching it dirty. */
  function Touch(watches: map<Connection, Watch>, e: Entity): map<Connection, Watch> {
    map c | c in watches :: if watches[c].entity == e then Watch(e, true) else watches[c]
  }

  function GetOrInit(k: Keyspace, e: Entity): (Keyspace, nat) {
    if e in k.markers then (k, k.markers[e])
    else
      var next := k.sequence + 1;
      (k.(sequence := next, markers := k.markers[e := next], watches := Touch(k.watches, e)), next)
  }

  /** The sequence after both scripts have lifted it over a legacy marker. */
  function Lifted(k: Keyspace, e: Entity): nat {
    if e in k.markers && k.markers[e] > k.sequence then k.markers[e] else k.sequence
  }

  function Invalidate(k: Keyspace, e: Entity): Keyspace {
    var next := Lifted(k, e) + 1;
    k.(sequence := next, markers := k.markers[e := next], hashes := k.hashes - {e},
       watches := Touch(k.watches, e))
  }

  function Delete(k: Keyspace, e: Entity): Keyspace {
    k.(sequence := Lifted(k, e), markers := k.markers - {e}, hashes := k.hashes - {e},
       watches := if e in k.markers then Touch(k.watches, e) else k.watches)
  }

  /** GET of a version key as the refill reads it: a missing key counts as -1. */
  function ReadVersion(k: Keyspace, e: Entity): int {
    if e in k.markers then k.markers[e] else -1
  }

  function BeginWatch(k: Keyspace, c: Connection, e: Entity): Keyspace {
    k.(watches := k.watches[c := Watch(e, false)])
  }

  function EndWatch(k: Keyspace, c: Connection): Keyspace {
    k.(watches := k.watches - {c})
  }

  /** HSET overwrites the given fields and keeps the others. */
  function HSet(k: Keyspace, e: Entity, data: Row): Keyspace {
    k.(hashes := k.hashes[e := (if e in k.hashes then k.hashes[e] else map[]) + data])
  }

  /** EXEC runs the queued HSET only if nothing wrote the watched key. */
  function Exec(k: Keyspace, c: Connection, e: Entity, data: Row): (Keyspace, bool)
    requires c in k.watches
  {
    if k.watches[c].dirty then (EndWatch(k, c), false) else (HSet(EndWatch(k, c), e, data), true)
  }

  /** The single atomic step the WATCH transaction stands for. */
  function CompareAndStore(k: Keyspace, e: Entity, expected: int, data: Row): (Keyspace, bool) {
    if ReadVersion(k, e) == expected then (HSet(k, e, data), true) else (k, false)
  }

  // ----- Generations never come back

  /** `v` may have been a generation of `e` at some time up to now. */
  ghost predicate Issued(k: Keyspace, e: Entity, v: int) {
    0 <= v && (if e in k.markers then v <= k.markers[e] else v <= k.sequence)
  }

  /** `v` is spent: `e` no longer carries it. */
  ghost predicate Retired(k: Keyspace, e: Entity, v: int) {
    Issued(k, e, v) && ReadVersion(k, e) != v
  }

  /** Every change another process can make between two steps of a refill. */
  datatype Command =
    | CmdGetOrInit(e: Entity)
    | CmdInvalidate(e: Entity)
    | CmdDelete(e: Entity)
    | CmdRefill(e: Entity, expected: int, data: Row)
    | CmdExpire(e: Entity)

  function Perform(k: Keyspace, cmd: Command): (r: Keyspace)
    ensures r.watches.Keys == k.watches.Keys
  {
    match cmd
    case CmdGetOrInit(e) => GetOrInit(k, e).0
    case CmdInvalidate(e) => Invalidate(k, e)
    case CmdDelete(e) => Delete(k, e)
    case CmdRefill(e, expected, data) => CompareAndStore(k, e, expected, data).0
    case CmdExpire(e) => k.(hashes := k.hashes - {e})
  }

  function PerformAll(k: Keyspace, cmds: seq<Command>): (r: Keyspace)
    ensures r.watches.Keys == k.watches.Keys
  {
    if cmds == [] then k else Perform(PerformAll(k, cmds[..|cmds| - 1]), cmds[|cmds| - 1])
  }

  /**
   `v` may have been a generation of `e`, or has been passed over: the sequence will not issue it
   again. Every generation that a reader holds is past.
  */
  ghost predicate Past(k: Keyspace, e: Entity, v: int) {
    0 <= v <= Lifted(k, e)
  }

  lemma PastPersists(k: Keyspace, cmd: Command, e: Entity, v: int)
    requires Past(k, e, v)
    ensures Past(Perform(k, cmd), e, v)
    ensures ReadVersion(k, e) != v ==> ReadVersion(Perform(k, cmd), e) != v
  {
  }

  // ----- What a watch says

  predicate Watches(k: Keyspace, c: Connection, e: Entity) {
    c in k.watches && k.watches[c].entity == e
  }

  /** From the WATCH on: once the watch is dirty, the past generation `v` is spent. */
  ghost predicate WatchFences(k: Keyspace, c: Connection, e: Entity, v: int) {
    Watches(k, c, e) && Past(k, e, v) && (k.watches[c].dirty ==> ReadVersion(k, e) != v)
  }

  /** From a GET that has read `v` on: as long as the watch is clean, `v` still stands. */
  predicate WatchHolds(k: Keyspace, c: Connection, e: Entity, v: int) {
    Watches(k, c, e) && (!k.watches[c].dirty ==> ReadVersion(k, e) == v)
  }

  lemma WatchFencesPersists(k: Keyspace, cmd: Command, c: Connection, e: Entity, v: int)
    requires WatchFences(k, c, e, v)
    ensures WatchFences(Perform(k, cmd), c, e, v)
  {
    PastPersists(k, cmd, e, v);
  }

  lemma WatchHoldsPersists(k: Keyspace, cmd: Command, c: Connection, e: Entity, v: int)
    requires WatchHolds(k, c, e, v)
    ensures WatchHolds(Perform(k, cmd), c, e, v)
  {
  }

  /** Watching does not change what other processes do to the rest of the keyspace. */
  lemma WatchIsInvisible(k: Keyspace, c: Connection, cmd: Command)
    requires c in k.watches
    ensures EndWatch(Perform(k, cmd), c) == Perform(EndWatch(k, c), cmd)
  {
    var a, b := EndWatch(Perform(k, cmd), c), Perform(EndWatch(k, c), cmd);
    assert a.watches == b.watches;
  }

  /** The three facts over any number of commands. */
  lemma {:induction false} WatchPersists(k: Keyspace, cmds: seq<Command>, c: Connection, e: Entity, v: int)
    requires c in k.watches
    ensures EndWatch(PerformAll(k, cmds), c) == PerformAll(EndWatch(k, c), cmds)
    ensures WatchFences(k, c, e, v) ==> WatchFences(PerformAll(k, cmds), c, e, v)
    ensures WatchHolds(k, c, e, v) ==> WatchHolds(PerformAll(k, cmds), c, e, v)
  {
    if cmds != [] {
      var before, last := cmds[..|cmds| - 1], cmds[|cmds| - 1];
      WatchPersists(k, before, c, e, v);
      var mid := PerformAll(k, before);
      WatchIsInvisible(mid, c, last);
      if WatchFences(k, c, e, v) {
        WatchFencesPersists(mid, last, c, e, v);
      }
      if WatchHolds(k, c, e, v) {
        WatchHoldsPersists(mid, last, c, e, v);
      }
    }
  }

  // ----- The refill transaction

  /**
   WATCH, GET, and EXEC if the version agrees, on a connection of its own; the other processes issue
   `before` between the WATCH and the GET, and `after` between the GET and the EXEC.
  */
  function Refill(k: Keyspace, c: Connection, e: Entity, expected: int, data: Row,
                  before: seq<Command>, after: seq<Command>): (Keyspace, bool)
  {
    var atGet := PerformAll(BeginWatch(k, c, e), before);
    if ReadVersion(atGet, e) != expected then (EndWatch(atGet, c), false)
    else Exec(PerformAll(atGet, after), c, e, data)
  }

  /** The keyspace at the last step of the refill, as the other processes have made it. */
  function AtLastStep(k: Keyspace, e: Entity, expected: int, before: seq<Command>, after: seq<Command>): Keyspace {
    var atGet := PerformAll(k, before);
    if ReadVersion(atGet, e) != expected then atGet else PerformAll(atGet, after)
  }

  /** The refill is one atomic compare-and-store at its last step. */
  predicate IsAtomic(k: Keyspace, c: Connection, e: Entity, expected: int, data: Row,
                     before: seq<Command>, after: seq<Command>)
  {
    Refill(k, c, e, expected, data, before, after)
      == CompareAndStore(AtLastStep(k, e, expected, before, after), e, expected, data)
  }

  lemma WatchedAtGet(k: Keyspace, c: Connection, e: Entity, v: int, before: seq<Command>)
    requires c !in k.watches
    ensures var watched := PerformAll(BeginWatch(k, c, e), before);
      && EndWatch(watched, c) == PerformAll(k, before)
      && ReadVersion(watched, e) == ReadVersion(PerformAll(k, before), e)
      && Watches(watched, c, e) && (Past(k, e, v) ==> WatchFences(watched, c, e, v))
  {
    var start := BeginWatch(k, c, e);
    assert EndWatch(start, c) == k;
    WatchPersists(start, before, c, e, v);
    WatchHoldsThrough(start, before, c, e);
  }

  lemma {:induction false} WatchHoldsThrough(k: Keyspace, cmds: seq<Command>, c: Connection, e: Entity)
    requires Watches(k, c, e)
    ensures Watches(PerformAll(k, cmds), c, e)
  {
    if cmds != [] {
      WatchHoldsThrough(k, cmds[..|cmds| - 1], c, e);
    }
  }

  /**
   Whatever the others do, and for any expected version, a refill that stores is an atomic
   compare-and-store at its last step, and one that does not changes nothing. It fails without
   cause only if the watched marker was written and yet carries the expected version.
  */
  lemma RefillIsSafe(k: Keyspace, c: Connection, e: Entity, expected: int, data: Row,
                     before: seq<Command>, after: seq<Command>)
    requires c !in k.watches
    ensures var now, r := AtLastStep(k, e, expected, before, after), Refill(k, c, e, expected, data, before, after);
      && (!r.1 ==> r.0 == now)
      && (r.1 || Past(k, e, expected) || expected < -1 ==> IsAtomic(k, c, e, expected, data, before, after))
  {
    var atGet := PerformAll(BeginWatch(k, c, e), before);
    WatchedAtGet(k, c, e, expected, before);
    WatchPersists(atGet, after, c, e, expected);
  }

  /**
   In every interleaving the refill is one atomic compare-and-store, exactly when the expected
   version is one the sequence has reached, as every version held by a reader is, or one that no
   marker can show. A caller that passes -1, or a version still to come, can see it fail although
   the marker agrees: when the marker is written between the WATCH and the GET.
  */
  lemma RefillIsAtomicIff(k: Keyspace, c: Connection, e: Entity, expected: int, data: Row)
    requires c !in k.watches
    ensures Past(k, e, expected) || expected < -1 <==>
      forall before, after :: IsAtomic(k, c, e, expected, data, before, after)
  {
    if Past(k, e, expected) || expected < -1 {
      forall before, after
        ensures IsAtomic(k, c, e, expected, data, before, after)
      {
        RefillIsSafe(k, c, e, expected, data, before, after);
      }
    } else {
      SpoilerAborts(k, c, e, expected, data);
    }
  }

  lemma SpoilerAborts(k: Keyspace, c: Connection, e: Entity, expected: int, data: Row)
    requires c !in k.watches && !Past(k, e, expected) && expected >= -1
    ensures !IsAtomic(k, c, e, expected, data, Spoiler(k, e, expected), [])
  {
    var start, before := BeginWatch(k, c, e), Spoiler(k, e, expected);
    assert Spoiler(start, e, expected) == before;
    SpoilerSpoils(start, c, e, expected);
    WatchedAtGet(k, c, e, expected, before);
    DirtyAborts(k, c, e, expected, data, before);
  }

  lemma DirtyAborts(k: Keyspace, c: Connection, e: Entity, expected: int, data: Row, before: seq<Command>)
    requires var atGet := PerformAll(BeginWatch(k, c, e), before);
      c in atGet.watches && atGet.watches[c].dirty && ReadVersion(atGet, e) == expected
    requires ReadVersion(PerformAll(k, before), e) == expected
    ensures !IsAtomic(k, c, e, expected, data, before, [])
  {
    var atGet := PerformAll(BeginWatch(k, c, e), before);
    assert PerformAll(atGet, []) == atGet;
    assert Refill(k, c, e, expected, data, before, []) == Exec(atGet, c, e, data);
  }

  /** Commands of others that write the marker and leave it at a version that is not past. */
  function Spoiler(k: Keyspace, e: Entity, expected: int): seq<Command> {
    if expected == -1 then (if e in k.markers then [] else [CmdGetOrInit(e)]) + [CmdDelete(e)]
    else if expected <= Lifted(k, e) then []
    else Invalidations(e, expected - Lifted(k, e))
  }

  function Invalidations(e: Entity, n: nat): seq<Command> {
    seq(n, _ => CmdInvalidate(e))
  }

  lemma SpoilerSpoils(k: Keyspace, c: Connection, e: Entity, expected: int)
    requires Watches(k, c, e) && !Past(k, e, expected) && expected >= -1
    ensures var r := PerformAll(k, Spoiler(k, e, expected));
      c in r.watches && r.watches[c].dirty && ReadVersion(r, e) == expected
  {
    if expected == -1 {
      DeletionSpoils(k, c, e);
    } else {
      InvalidationsCount(k, c, e, expected - Lifted(k, e));
    }
  }

  lemma DeletionSpoils(k: Keyspace, c: Connection, e: Entity)
    requires Watches(k, c, e)
    ensures var r := PerformAll(k, Spoiler(k, e, -1));
      c in r.watches && r.watches[c].dirty && ReadVersion(r, e) == -1
  {
    var created := if e in k.markers then [] else [CmdGetOrInit(e)];
    PerformNoneOrOne(k, CmdGetOrInit(e));
    PerformSnoc(k, created, CmdDelete(e));
    DeleteDirties(PerformAll(k, created), c, e);
  }

  lemma PerformNoneOrOne(k: Keyspace, cmd: Command)
    ensures PerformAll(k, []) == k && PerformAll(k, [cmd]) == Perform(k, cmd)
  {
    assert [cmd][..0] == [];
  }

  lemma DeleteDirties(k: Keyspace, c: Connection, e: Entity)
    requires Watches(k, c, e) && e in k.markers
    ensures var r := Perform(k, CmdDelete(e)); c in r.watches && r.watches[c].dirty && ReadVersion(r, e) == -1
  {
  }

  lemma PerformSnoc(k: Keyspace, cmds: seq<Command>, cmd: Command)
    ensures PerformAll(k, cmds + [cmd]) == Perform(PerformAll(k, cmds), cmd)
  {
    assert (cmds + [cmd])[..|cmds|] == cmds;
  }

  predicate Reached(k: Keyspace, c: Connection, e: Entity, v: int) {
    Watches(k, c, e) && k.watches[c].dirty && ReadVersion(k, e) == v && Lifted(k, e) == v
  }

  lemma {:induction false} InvalidationsCount(k: Keyspace, c: Connection, e: Entity, n: nat)
    requires Watches(k, c, e) && n > 0
    ensures Reached(PerformAll(k, Invalidations(e, n)), c, e, Lifted(k, e) + n)
  {
    var prev := Invalidations(e, n - 1);
    assert Invalidations(e, n) == prev + [CmdInvalidate(e)];
    PerformSnoc(k, prev, CmdInvalidate(e));
    if n == 1 {
      assert prev == [] && PerformAll(k, prev) == k;
    } else {
      InvalidationsCount(k, c, e, n - 1);
    }
    InvalidateReaches(PerformAll(k, prev), c, e);
  }

  lemma InvalidateReaches(k: Keyspace, c: Connection, e: Entity)
    requires Watches(k, c, e)
    ensures Reached(Perform(k, CmdInvalidate(e)), c, e, Lifted(k, e) + 1)
  {
  }

  /**
   A missing marker rejects every version but -1: with it a refill that is left alone stores, and
   without it none does, whatever happens before its last step.
  */
  lemma MissingMarkerRejects(k: Keyspace, c: Connection, e: Entity, expected: int, data: Row,
                             before: seq<Command>, after: seq<Command>)
    requires c !in k.watches
    ensures e !in AtLastStep(k, e, expected, before, after).markers && expected != -1 ==>
      !Refill(k, c, e, expected, data, before, after).1
    ensures e !in k.markers ==> (Refill(k, c, e, expected, data, [], []).1 <==> expected == -1)
  {
    RefillIsSafe(k, c, e, expected, data, before, after);
  }

  // ----- What stays in the cache

  /** The cached value of a field, if there is one. */
  function CachedField(k: Keyspace, e: Entity, f: Field): Option<string> {
    if e in k.hashes && f in k.hashes[e] then Some(k.hashes[e][f]) else None
  }

  /**
   After a refill that stored, its fields read back with their values. Every other field, of this
   entity or another one, and every field when it did not store, is what it was at the last step:
   a refill with some of the fields leaves the others in the cache.
  */
  lemma RefillReadsBack(k: Keyspace, c: Connection, e: Entity, expected: int, data: Row,
                        before: seq<Command>, after: seq<Command>)
    requires c !in k.watches
    ensures var now, r := AtLastStep(k, e, expected, before, after), Refill(k, c, e, expected, data, before, after);
      forall x, f ::
        CachedField(r.0, x, f) == if r.1 && x == e && f in data then Some(data[f]) else CachedField(now, x, f)
  {
    RefillIsSafe(k, c, e, expected, data, before, after);
  }

  /** A command on one entity leaves the version, the cached fields and the watches of every other one alone. */
  lemma CommandsAreLocal(k: Keyspace, cmd: Command, x: Entity)
    requires cmd.e != x
    ensures ReadVersion(Perform(k, cmd), x) == ReadVersion(k, x)
    ensures forall f :: CachedField(Perform(k, cmd), x, f) == CachedField(k, x, f)
    ensures forall c :: Watches(k, c, x) ==> Perform(k, cmd).watches[c] == k.watches[c]
  {
  }

  /**
   Asking for the version of an entity that has one changes nothing, and otherwise gives it one that
   reads back; both scripts drop every cached field and spend the version, a deletion with its marker.
   An expired hash has no field either, and keeps its version.
  */
  lemma CommandsDo(k: Keyspace, e: Entity)
    ensures var (r, v) := GetOrInit(k, e);
      && ReadVersion(r, e) == v && (ReadVersion(k, e) != -1 ==> r == k)
      && forall f :: CachedField(r, e, f) == CachedField(k, e, f)
    ensures var r := Invalidate(k, e);
      && ReadVersion(r, e) > ReadVersion(k, e) && ReadVersion(r, e) == r.sequence > k.sequence
      && forall f :: CachedField(r, e, f) == None
    ensures var r := Delete(k, e);
      && ReadVersion(r, e) == -1 && r.sequence >= k.sequence && r.sequence >= ReadVersion(k, e)
      && forall f :: CachedField(r, e, f) == None
    ensures var r := Perform(k, CmdExpire(e));
      ReadVersion(r, e) == ReadVersion(k, e) && forall f :: CachedField(r, e, f) == None
  {
  }

  // ----- The server, performing the same commands in place

  class Server {
    var markers: map<Entity, nat>
    var sequence: nat
    var hashes: map<Entity, Row>
    var watches: map<Connection, Watch>

    ghost function State(): Keyspace
      reads this
    {
      Keyspace(markers, sequence, hashes, watches)
    }

    constructor (markers: map<Entity, nat>, sequence: nat)
      ensures State() == Keyspace(markers, sequence, map[], map[])
    {
      this.markers, this.sequence := markers, sequence;
      this.hashes, this.watches := map[], map[];
    }

    method SetMarker(e: Entity, v: nat)
      modifies `markers, `watches
      ensures markers == old(markers)[e := v] && watches == Touch(old(watches), e)
    {
      markers := markers[e := v];
      watches := Touch(watches, e);
    }

    method GetOrInitVersion(e: Entity) returns (version: nat)
      modifies this
      ensures (State(), version) == GetOrInit(old(State()), e)
    {
      if e in markers {
        return markers[e];
      }
      sequence := sequence + 1;
      version := sequence;
      SetMarker(e, version);
    }

    method InvalidateVersionedHash(e: Entity)
      modifies this
      ensures State() == Invalidate(old(State()), e)
    {
      var current := if e in markers then markers[e] else 0;
      if current > sequence {
        sequence := current;
      }
      sequence := sequence + 1;
      SetMarker(e, sequence);
      hashes := hashes - {e};
    }

    method DeleteVersionedHash(e: Entity)
      modifies this
      ensures State() == Delete(old(State()), e)
    {
      var current := if e in markers then markers[e] else 0;
      if current > sequence {
        sequence := current;
      }
      hashes := hashes - {e};
      if e in markers {
        markers := markers - {e};
        watches := Touch(watches, e);
      }
    }

    method Apply(cmd: Command)
      modifies this
      ensures State() == Perform(old(State()), cmd)
    {
      match cmd
      case CmdGetOrInit(e) => var _ := GetOrInitVersion(e);
      case CmdInvalidate(e) => InvalidateVersionedHash(e);
      case CmdDelete(e) => DeleteVersionedHash(e);
      case CmdRefill(e, expected, data) =>
        if (if e in markers then markers[e] else -1) == expected {
          hashes := hashes[e := (if e in hashes then hashes[e] else map[]) + data];
        }
      case CmdExpire(e) => hashes := hashes - {e};
    }

    /**
     The refill of one process on its own connection, while the other processes issue `before`
     between its WATCH and its GET, and `after` between its GET and its EXEC.
    */
    method HSetIfVersion(c: Connection, e: Entity, expected: int, data: Row, before: seq<Command>, after: seq<Command>)
      returns (stored: bool)
      requires c !in watches
      modifies this
      ensures (State(), stored) == Refill(old(State()), c, e, expected, data, before, after)
      ensures stored || Past(old(State()), e, expected) ==>
                IsAtomic(old(State()), c, e, expected, data, before, after)
    {
      ghost var start := State();
      RefillIsSafe(start, c, e, expected, data, before, after);
      watches := watches[c := Watch(e, false)];
      Interfere(before);
      var version: int := -1;
      if e in markers {
        version := markers[e];
      }
      if version != expected {
        watches := watches - {c};
        return false;
      }
      Interfere(after);
      stored := ExecQueued(c, e, data);
    }

    method ExecQueued(c: Connection, e: Entity, data: Row) returns (stored: bool)
      requires c in watches
      modifies this
      ensures (State(), stored) == Exec(old(State()), c, e, data)
    {
      stored := !watches[c].dirty;
      watches := watches - {c};
      if stored {
        hashes := hashes[e := (if e in hashes then hashes[e] else map[]) + data];
      }
    }

    /** The steps of other processes. */
    method Interfere(cmds: seq<Command>)
      modifies this
      ensures State() == PerformAll(old(State()), cmds)
    {
      for i := 0 to |cmds|
        invariant State() == PerformAll(old(State()), cmds[..i])
      {
        assert cmds[..i + 1][..i] == cmds[..i];
        Apply(cmds[i]);
      }
      assert cmds[..|cmds|] == cmds;
    }
  }
}
