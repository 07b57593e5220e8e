/**
 One-time verification codes (common/verification.go): a code is reserved while an action runs
 outside the lock, consumed if the action succeeds and released if it fails or panics.

 `VerificationCodes` updates the shared table in place; `World` interleaves any number of its
 operations, with the begin and the finish of a reserved action as separate steps.
*/
module Verification {
  const VALID_MINUTES := 10
  const MAX_SIZE := 10
  const SECOND := 1_000_000_000  // the clock counts nanoseconds

  /** A registered code; `claim` is the id of the action that has reserved it, "" if none has. */
  datatype Entry = Entry(code: string, time: int, claim: string)

  type Table = map<string, Entry>

  // ----- The operations on a table

  /** int(Duration.Seconds()), which truncates toward zero. */
  function WholeSeconds(d: int): int {
    if d >= 0 then d / SECOND else -(-d / SECOND)
  }

  predicate Expired(e: Entry, now: int) {
    WholeSeconds(now - e.time) >= VALID_MINUTES * 60
  }

  predicate Usable(t: Table, key: string, code: string, now: int) {
    key in t && t[key].claim == "" && !Expired(t[key], now) && code == t[key].code
  }

  function RemoveExpired(t: Table, now: int): Table {
    map key | key in t && !Expired(t[key], now) :: t[key]
  }

  function Register(t: Table, key: string, code: string, now: int): Table {
    var t' := t[key := Entry(code, now, "")];
    if |t'| > MAX_SIZE then RemoveExpired(t', now) else t'
  }

  function Begin(t: Table, key: string, code: string, claim: string, now: int): Table {
    if Usable(t, key, code, now) then t[key := t[key].(claim := claim)] else t
  }

  function Finish(t: Table, key: string, claim: string, committed: bool): Table {
    if key !in t || t[key].claim != claim then t
    else if committed then t - {key}
    else t[key := t[key].(claim := "")]
  }

  function VerifyAndDelete(t: Table, key: string, code: string, now: int): Table {
    if Usable(t, key, code, now) then t - {key} else t
  }

  datatype Operation =
    | OpRegister(key: string, code: string, now: int)
    | OpBegin(key: string, code: string, claim: string, now: int)
    | OpFinish(key: string, claim: string, committed: bool)
    | OpVerifyAndDelete(key: string, code: string, now: int)
    | OpDelete(key: string)

  function Perform(t: Table, op: Operation): Table {
    match op
    case OpRegister(key, code, now) => Register(t, key, code, now)
    case OpBegin(key, code, claim, now) => Begin(t, key, code, claim, now)
    case OpFinish(key, claim, committed) => Finish(t, key, claim, committed)
    case OpVerifyAndDelete(key, code, now) => VerifyAndDelete(t, key, code, now)
    case OpDelete(key) => t - {key}
  }

  function PerformAll(t: Table, ops: seq<Operation>): Table {
    if ops == [] then t else Perform(PerformAll(t, ops[..|ops| - 1]), ops[|ops| - 1])
  }

  // ----- What the operations do, entry by entry

  /** Ten minutes have passed. */
  lemma ExpiredIff(e: Entry, now: int)
    ensures Expired(e, now) <==> now - e.time >= 600 * 1_000_000_000
  {
  }

  /** The two tables have the same entry at a key, or neither has one. */
  predicate SameAt(t: Table, t': Table, key: string) {
    (key in t <==> key in t') && (key in t ==> t[key] == t'[key])
  }

  /**
   A registration stores the code, unclaimed and with its time. It leaves every other entry alone,
   except that with more than ten entries the ones of ten minutes and more are swept away.
  */
  lemma RegisterStores(t: Table, key: string, code: string, now: int, other: string)
    ensures var t' := Register(t, key, code, now);
      && key in t' && t'[key] == Entry(code, now, "")
      && (other != key ==>
            if |t.Keys + {key}| > 10 && other in t && now - t[other].time >= 600 * 1_000_000_000 then other !in t'
            else SameAt(t, t', other))
  {
    assert t[key := Entry(code, now, "")].Keys == t.Keys + {key};
  }

  /** The other operations touch the entry of their own key only, and a code that is not usable not even that. */
  lemma OperationsAreLocal(t: Table, op: Operation, other: string)
    requires !op.OpRegister?
    ensures op.key != other ==> SameAt(t, Perform(t, op), other)
    ensures (op.OpBegin? || op.OpVerifyAndDelete?) && !Usable(t, op.key, op.code, op.now) ==> Perform(t, op) == t
    ensures op.OpFinish? && (op.key !in t || t[op.key].claim != op.claim) ==> Perform(t, op) == t
    ensures op.OpDelete? ==> op.key !in Perform(t, op)
  {
  }

  /** How the protected action ends. */
  datatype Outcome = Succeeds | Fails | Panics

  // ----- The shared table, updated in place

  class VerificationCodes {
    var table: Table

    constructor ()
      ensures table == map[]
    {
      table := map[];
    }

    method RegisterCode(key: string, code: string, now: int)
      modifies this
      ensures table == Register(old(table), key, code, now)
    {
      table := table[key := Entry(code, now, "")];
      if |table| > MAX_SIZE {
        RemoveExpiredPairs(now);
      }
    }

    method RemoveExpiredPairs(now: int)
      modifies this
      ensures table == RemoveExpired(old(table), now)
    {
      var keys := table.Keys;
      while keys != {}
        invariant keys <= table.Keys
        invariant forall key :: key in table ==> key in old(table) && table[key] == old(table)[key]
        invariant forall key :: key in table && key !in keys ==> key in RemoveExpired(old(table), now)
        invariant forall key :: key in RemoveExpired(old(table), now) ==> key in table
        decreases |keys|
      {
        var key :| key in keys;
        if Expired(table[key], now) {
          table := table - {key};
        }
        keys := keys - {key};
      }
    }

    method VerifyCode(key: string, code: string, now: int) returns (ok: bool)
      ensures ok == Usable(table, key, code, now)
    {
      if key !in table || table[key].claim != "" || Expired(table[key], now) {
        return false;
      }
      return code == table[key].code;
    }

    method VerifyAndDeleteCode(key: string, code: string, now: int) returns (ok: bool)
      modifies this
      ensures ok == Usable(old(table), key, code, now)
      ensures table == VerifyAndDelete(old(table), key, code, now)
    {
      if key !in table || table[key].claim != "" || Expired(table[key], now) || code != table[key].code {
        return false;
      }
      table := table - {key};
      return true;
    }

    method DeleteKey(key: string)
      modifies this
      ensures table == old(table) - {key}
    {
      table := table - {key};
    }

    method Apply(op: Operation)
      modifies this
      ensures table == Perform(old(table), op)
    {
      match op
      case OpRegister(key, code, now) => RegisterCode(key, code, now);
      case OpBegin(key, code, claim, now) => var _ := BeginRun(key, code, claim, now);
      case OpFinish(key, claim, committed) => FinishRun(key, claim, committed);
      case OpVerifyAndDelete(key, code, now) => var _ := VerifyAndDeleteCode(key, code, now);
      case OpDelete(key) => DeleteKey(key);
    }

    /** The part of VerifyCodeWithKeyAndRun before the action, under the lock. */
    method BeginRun(key: string, code: string, claim: string, now: int) returns (verified: bool)
      modifies this
      ensures verified == Usable(old(table), key, code, now)
      ensures table == Begin(old(table), key, code, claim, now)
    {
      if key !in table || table[key].claim != "" || Expired(table[key], now) || code != table[key].code {
        return false;
      }
      var value := table[key];
      table := table[key := value.(claim := claim)];
      return true;
    }

    /** Its deferred part, after the action. */
    method FinishRun(key: string, claim: string, committed: bool)
      modifies this
      ensures table == Finish(old(table), key, claim, committed)
    {
      if key in table && table[key].claim == claim {
        if committed {
          table := table - {key};
        } else {
          table := table[key := table[key].(claim := "")];
        }
      }
    }

    /** VerifyCodeWithKeyAndRun, while other callers perform `others` during the action. */
    method VerifyCodeAndRun(key: string, code: string, claim: string, now: int,
                            others: seq<Operation>, outcome: Outcome) returns (verified: bool)
      modifies this
      ensures verified == Usable(old(table), key, code, now)
      ensures table == if verified
                       then Finish(PerformAll(Begin(old(table), key, code, claim, now), others),
                                   key, claim, outcome.Succeeds?)
                       else old(table)
    {
      verified := BeginRun(key, code, claim, now);
      if !verified {
        return;
      }
      ghost var reserved := table;
      var i := 0;
      while i < |others|
        invariant 0 <= i <= |others| && table == PerformAll(reserved, others[..i])
      {
        assert others[..i + 1][..i] == others[..i];
        Apply(others[i]);
        i := i + 1;
      }
      assert others[..i] == others;
      var committed := false;
      if outcome == Succeeds {
        committed := true;
      }
      FinishRun(key, claim, committed);
    }
  }

  // ----- All interleavings

  /** What was registered under a registration number, and a running action that has reserved one. */
  datatype Registration = Registration(key: string, code: string, time: int)
  datatype Job = Job(key: string, reg: nat)

  /**
   `owner[k]` is the registration the entry at k came from, `running` the actions under way by
   claim id, `used` all claim ids so far, and `consumed` the registrations successfully consumed.
  */
  datatype World = World(
    table: Table,
    owner: map<string, nat>,
    registered: seq<Registration>,
    running: map<string, Job>,
    used: set<string>,
    consumed: seq<nat>)

  const START := World(map[], map[], [], map[], {}, [])

  datatype Event =
    | Registers(key: string, code: string, now: int)
    | Begins(key: string, code: string, claim: string, now: int)
    | Finishes(claim: string, committed: bool)
    | Checks(key: string, code: string, now: int)
    | VerifiesAndDeletes(key: string, code: string, now: int)
    | Deletes(key: string)

  /** Claim ids are fresh, and only a running action finishes. */
  predicate Enabled(w: World, ev: Event) {
    && (ev.Begins? ==> ev.claim != "" && ev.claim !in w.used)
    && (ev.Finishes? ==> ev.claim in w.running)
    && w.table.Keys <= w.owner.Keys
  }

  function Next(w: World, ev: Event): World
    requires Enabled(w, ev)
  {
    match ev
    case Registers(key, code, now) =>
      w.(table := Register(w.table, key, code, now),
         owner := w.owner[key := |w.registered|],
         registered := w.registered + [Registration(key, code, now)])
    case Begins(key, code, claim, now) =>
      if Usable(w.table, key, code, now) then
        w.(table := Begin(w.table, key, code, claim, now),
           running := w.running[claim := Job(key, w.owner[key])],
           used := w.used + {claim})
      else w
    case Finishes(claim, committed) =>
      var job := w.running[claim];
      w.(table := Finish(w.table, job.key, claim, committed),
         running := w.running - {claim},
         consumed := if committed then w.consumed + [job.reg] else w.consumed)
    case Checks(_, _, _) => w
    case VerifiesAndDeletes(key, code, now) =>
      if Usable(w.table, key, code, now) then
        w.(table := VerifyAndDelete(w.table, key, code, now), consumed := w.consumed + [w.owner[key]])
      else w
    case Deletes(key) => w.(table := w.table - {key})
  }

  ghost predicate IsRun(ws: seq<World>, evs: seq<Event>) {
    && |ws| == |evs| + 1 && ws[0] == START
    && forall i :: 0 <= i < |evs| ==> Enabled(ws[i], evs[i]) && ws[i + 1] == Next(ws[i], evs[i])
  }

  // ----- The invariant

  ghost predicate EntryOk(w: World, key: string)
    requires key in w.table
  {
    && key in w.owner && w.owner[key] < |w.registered|
    && w.registered[w.owner[key]] == Registration(key, w.table[key].code, w.table[key].time)
    && var claim := w.table[key].claim;
       if claim == "" then Free(w, w.owner[key])
       else claim in w.running && w.running[claim] == Job(key, w.owner[key])
  }

  /** Nobody has consumed registration `reg` or is about to. */
  ghost predicate Free(w: World, reg: nat) {
    reg !in w.consumed && forall c :: c in w.running ==> w.running[c].reg != reg
  }

  ghost predicate JobOk(w: World, claim: string)
    requires claim in w.running
  {
    && claim != "" && claim in w.used
    && w.running[claim].reg < |w.registered| && w.running[claim].reg !in w.consumed
  }

  ghost predicate Inv(w: World) {
    && w.table.Keys <= w.owner.Keys
    && (forall key :: key in w.table ==> EntryOk(w, key))
    && (forall c :: c in w.running ==> JobOk(w, c))
    && (forall c, d :: c in w.running && d in w.running && c != d ==> w.running[c].reg != w.running[d].reg)
    && (forall r :: r in w.consumed ==> r < |w.registered|)
    && (forall i, j :: 0 <= i < j < |w.consumed| ==> w.consumed[i] != w.consumed[j])
  }

  lemma EntryKept(w: World, ev: Event, key: string)
    requires Inv(w) && Enabled(w, ev) && key in Next(w, ev).table
    ensures EntryOk(Next(w, ev), key)
  {
    assert key in w.table ==> EntryOk(w, key);
    match ev
    case Registers(_, _, _) => EntryKeptByRegister(w, ev, key);
    case Begins(k, _, _, _) =>
      assert k in w.table ==> EntryOk(w, k);
    case Finishes(_, _) => EntryKeptByFinish(w, ev, key);
    case VerifiesAndDeletes(k, _, _) =>
      assert k in w.table ==> EntryOk(w, k);
    case _ =>
  }

  lemma EntryKeptByRegister(w: World, ev: Event, key: string)
    requires Inv(w) && ev.Registers? && Enabled(w, ev) && key in Next(w, ev).table
    ensures EntryOk(Next(w, ev), key)
  {
    assert key in w.table ==> EntryOk(w, key);
    assert Free(w, |w.registered|) by {
      assert forall c :: c in w.running ==> JobOk(w, c);
    }
  }

  lemma EntryKeptByFinish(w: World, ev: Event, key: string)
    requires Inv(w) && ev.Finishes? && Enabled(w, ev) && key in Next(w, ev).table
    ensures EntryOk(Next(w, ev), key)
  {
    assert EntryOk(w, key);
    assert JobOk(w, ev.claim);
  }

  lemma JobsKept(w: World, ev: Event)
    requires Inv(w) && Enabled(w, ev)
    ensures var n := Next(w, ev);
            && (forall c :: c in n.running ==> JobOk(n, c))
            && (forall c, d :: c in n.running && d in n.running && c != d ==> n.running[c].reg != n.running[d].reg)
  {
    var n := Next(w, ev);
    assert !ev.Finishes? && !ev.Deletes? && ev.key in w.table ==> EntryOk(w, ev.key);
    forall c | c in n.running
      ensures JobOk(n, c)
    {
      assert c in w.running ==> JobOk(w, c);
    }
  }

  lemma ConsumedKept(w: World, ev: Event)
    requires Inv(w) && Enabled(w, ev)
    ensures var n := Next(w, ev);
            && (forall r :: r in n.consumed ==> r < |n.registered|)
            && (forall i, j :: 0 <= i < j < |n.consumed| ==> n.consumed[i] != n.consumed[j])
  {
    if ev.Finishes? {
      assert JobOk(w, ev.claim);
    } else if ev.VerifiesAndDeletes? && ev.key in w.table {
      assert EntryOk(w, ev.key);
    }
  }

  lemma StepInv(w: World, ev: Event)
    requires Inv(w) && Enabled(w, ev)
    ensures Inv(Next(w, ev))
  {
    forall key | key in Next(w, ev).table
      ensures EntryOk(Next(w, ev), key)
    {
      EntryKept(w, ev, key);
    }
    JobsKept(w, ev);
    ConsumedKept(w, ev);
  }

  lemma {:induction false} RunInv(ws: seq<World>, evs: seq<Event>, t: nat)
    requires IsRun(ws, evs) && t < |ws|
    ensures Inv(ws[t])
  {
    if t > 0 {
      RunInv(ws, evs, t - 1);
      StepInv(ws[t - 1], evs[t - 1]);
    }
  }

  /** In every run any operation can come next, with a fresh claim id for a new action. */
  lemma EventsHappen(ws: seq<World>, evs: seq<Event>, t: nat, ev: Event)
    requires IsRun(ws, evs) && t < |ws|
    requires ev.Begins? ==> ev.claim != "" && ev.claim !in ws[t].used
    requires ev.Finishes? ==> ev.claim in ws[t].running
    ensures Enabled(ws[t], ev)
  {
    RunInv(ws, evs, t);
  }

  // ----- What reservation promises

  /** The event successfully verifies the code stored at its key. */
  predicate Verifies(w: World, ev: Event) {
    && (ev.Begins? || ev.Checks? || ev.VerifiesAndDeletes?)
    && Usable(w.table, ev.key, ev.code, ev.now)
  }

  /** The presented code is that of the registration behind the key's entry, less than ten minutes old and unclaimed. */
  ghost predicate IsRightCode(w: World, ev: Event) {
    && (ev.Begins? || ev.Checks? || ev.VerifiesAndDeletes?)
    && ev.key in w.table && w.table[ev.key].claim == ""
    && ev.key in w.owner && w.owner[ev.key] < |w.registered|
    && var reg := w.registered[w.owner[ev.key]];
       reg.key == ev.key && reg.code == ev.code && ev.now - reg.time < 600 * 1_000_000_000
  }

  /** In every run a code verifies exactly when it was registered for that key, is not too old, and is not reserved. */
  lemma VerifiesIff(ws: seq<World>, evs: seq<Event>, t: nat)
    requires IsRun(ws, evs) && t < |evs|
    ensures Verifies(ws[t], evs[t]) <==> IsRightCode(ws[t], evs[t])
  {
    RunInv(ws, evs, t);
    if !evs[t].Finishes? && evs[t].key in ws[t].table {
      assert EntryOk(ws[t], evs[t].key);
    }
  }

  /** A registered code is the one behind its key from then on, and it verifies for ten minutes if nothing happens. */
  lemma RegisteredCodeVerifies(ws: seq<World>, evs: seq<Event>, t: nat, code: string, now: int)
    requires IsRun(ws, evs) && t < |evs| && evs[t].Registers?
    ensures var n, key := ws[t + 1], evs[t].key;
      && key in n.owner && n.owner[key] < |n.registered|
      && n.registered[n.owner[key]] == Registration(key, evs[t].code, evs[t].now)
      && (Usable(n.table, key, code, now) <==> code == evs[t].code && now - evs[t].now < 600 * 1_000_000_000)
  {
    RegisterStores(ws[t].table, evs[t].key, evs[t].code, evs[t].now, "");
  }

  /** A presented code that does not verify leaves the world as it was; one that does is reserved or deleted. */
  lemma VerificationChanges(w: World, ev: Event)
    requires Enabled(w, ev) && (ev.Begins? || ev.Checks? || ev.VerifiesAndDeletes?)
    ensures !Verifies(w, ev) || ev.Checks? ==> Next(w, ev) == w
    ensures Verifies(w, ev) && ev.Begins? ==>
              Next(w, ev).table == w.table[ev.key := w.table[ev.key].(claim := ev.claim)]
    ensures Verifies(w, ev) && ev.VerifiesAndDeletes? ==> ev.key !in Next(w, ev).table
    ensures ev.key !in Next(w, Deletes(ev.key)).table
  {
  }

  /** In every run each registration is successfully consumed at most once. */
  lemma ConsumedAtMostOnce(ws: seq<World>, evs: seq<Event>, t: nat, i: nat, j: nat)
    requires IsRun(ws, evs) && t < |ws| && i < j < |ws[t].consumed|
    ensures ws[t].consumed[i] != ws[t].consumed[j]
  {
    RunInv(ws, evs, t);
  }

  /** Whatever verifies, at any time, is a registration that nobody has consumed and no running action holds. */
  lemma VerifiedIsAvailable(ws: seq<World>, evs: seq<Event>, t: nat)
    requires IsRun(ws, evs) && t < |evs| && Verifies(ws[t], evs[t])
    ensures evs[t].key in ws[t].owner
    ensures var reg := ws[t].owner[evs[t].key];
            reg !in ws[t].consumed && forall c :: c in ws[t].running ==> ws[t].running[c].reg != reg
  {
    RunInv(ws, evs, t);
    assert EntryOk(ws[t], evs[t].key);
  }

  /**
   While a registration is reserved by a running action nothing verifies it, and no two running
   actions hold the same registration.
  */
  lemma ReservationIsExclusive(ws: seq<World>, evs: seq<Event>, t: nat, claim: string)
    requires IsRun(ws, evs) && t < |evs| && claim in ws[t].running
    ensures Verifies(ws[t], evs[t]) ==> ws[t].owner[evs[t].key] != ws[t].running[claim].reg
    ensures forall c :: c in ws[t].running && c != claim ==> ws[t].running[c].reg != ws[t].running[claim].reg
  {
    RunInv(ws, evs, t);
    if Verifies(ws[t], evs[t]) {
      VerifiedIsAvailable(ws, evs, t);
    }
  }

  /** A finishing action leaves every entry of another registration as it is, claimed or not. */
  lemma LateFinishIsHarmless(ws: seq<World>, evs: seq<Event>, t: nat, key: string)
    requires IsRun(ws, evs) && t < |evs| && evs[t].Finishes?
    requires key in ws[t].table && ws[t].owner[key] != ws[t].running[evs[t].claim].reg
    ensures key in ws[t + 1].table && ws[t + 1].table[key] == ws[t].table[key]
    ensures key in ws[t + 1].owner && ws[t + 1].owner[key] == ws[t].owner[key]
  {
    RunInv(ws, evs, t);
    assert EntryOk(ws[t], key) && JobOk(ws[t], evs[t].claim);
  }

  /** The only events that take an entry away from a running action: a new code, a deletion, or a sweep. */
  predicate Displaces(ev: Event, key: string, e: Entry) {
    match ev
    case Registers(k, _, now) => k == key || Expired(e, now)
    case Deletes(k) => k == key
    case _ => false
  }

  lemma ReservedEntryStays(w: World, ev: Event, claim: string)
    requires Inv(w) && Enabled(w, ev) && claim in w.running
    requires var job := w.running[claim];
             && job.key in w.table && w.table[job.key].claim == claim
             && !Displaces(ev, job.key, w.table[job.key])
    requires ev.Finishes? ==> ev.claim != claim
    ensures var n, job := Next(w, ev), w.running[claim];
            && claim in n.running && n.running[claim] == job
            && job.key in n.table && n.table[job.key] == w.table[job.key]
  {
    assert EntryOk(w, w.running[claim].key);
    if ev.Finishes? {
      assert JobOk(w, ev.claim);
    }
  }

  lemma {:induction false} ReservedUntil(ws: seq<World>, evs: seq<Event>, i: nat, j: nat)
    requires IsRun(ws, evs) && i < j < |ws|
    requires evs[i].Begins? && Verifies(ws[i], evs[i])
    requires forall m :: i < m < j ==> !Displaces(evs[m], evs[i].key, ws[i].table[evs[i].key])
    requires forall m :: i < m < j ==> !(evs[m].Finishes? && evs[m].claim == evs[i].claim)
    ensures var key, claim := evs[i].key, evs[i].claim;
            && claim in ws[j].running && ws[j].running[claim].key == key
            && key in ws[j].table && ws[j].table[key] == ws[i].table[key].(claim := claim)
    decreases j
  {
    if i + 1 < j {
      ReservedUntil(ws, evs, i, j - 1);
      RunInv(ws, evs, j - 1);
      ReservedEntryStays(ws[j - 1], evs[j - 1], evs[i].claim);
    }
  }

  /**
   Rollback: if the action begun at i fails or panics at j, and in between nobody registered a new
   code for the key, deleted it or swept it away, the entry is back exactly as it was, so the same
   code verifies again until it expires.
  */
  lemma FailedActionIsRetryable(ws: seq<World>, evs: seq<Event>, i: nat, j: nat, now: int)
    requires IsRun(ws, evs) && i < j < |evs|
    requires evs[i].Begins? && Verifies(ws[i], evs[i])
    requires evs[j] == Finishes(evs[i].claim, false)
    requires forall m :: i < m < j ==> !Displaces(evs[m], evs[i].key, ws[i].table[evs[i].key])
    requires forall m :: i < m < j ==> !(evs[m].Finishes? && evs[m].claim == evs[i].claim)
    ensures var key := evs[i].key;
            && key in ws[j + 1].table && ws[j + 1].table[key] == ws[i].table[key]
            && (Usable(ws[j + 1].table, key, evs[i].code, now) <==> !Expired(ws[i].table[key], now))
  {
    ReservedUntil(ws, evs, i, j);
  }

  /** A successful action consumes the code: unless a newer one was registered, none is left. */
  lemma SuccessfulActionConsumes(ws: seq<World>, evs: seq<Event>, t: nat)
    requires IsRun(ws, evs) && t < |evs| && evs[t].Finishes? && evs[t].committed
    ensures var job := ws[t].running[evs[t].claim];
            && ws[t + 1].consumed == ws[t].consumed + [job.reg]
            && var n := ws[t + 1]; forall key :: key in n.table ==> n.owner[key] != job.reg
  {
    RunInv(ws, evs, t);
    var n, job := ws[t + 1], ws[t].running[evs[t].claim];
    assert JobOk(ws[t], evs[t].claim);
    forall key | key in n.table
      ensures n.owner[key] != job.reg
    {
      assert EntryOk(ws[t], key);
    }
  }
}
