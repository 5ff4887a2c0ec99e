/** The per-process lock table of `DomainAuthComponent`: one counted mutex per
    idempotency key, created by the first caller and dropped by the last.

    Each operation is one critical section, written as a function on a value of
    the table: which entry a key has, and what every entry ever made holds.  The
    class performs them on entry objects; the runs interleave callers that
    acquire, lock, unlock and release. */
module KeyLocks {
  datatype Entry = Entry(refs: int, locked: bool)

  // `heap` holds every entry ever made; `locks` names the one a key has now.
  datatype Table = Table(locks: map<string, nat>, heap: seq<Entry>)

  const EMPTY := Table(map[], [])

  predicate WellFormed(t: Table) {
    forall k :: k in t.locks ==> t.locks[k] < |t.heap|
  }

  function Count(heap: seq<Entry>, e: nat, change: int): seq<Entry>
    requires e < |heap|
  {
    heap[e := heap[e].(refs := heap[e].refs + change)]
  }

  function EntryFor(t: Table, key: string): nat {
    if key in t.locks then t.locks[key] else |t.heap|
  }

  function Acquired(t: Table, key: string): Table
    requires WellFormed(t)
  {
    if key in t.locks then t.(heap := Count(t.heap, t.locks[key], 1))
    else Table(t.locks[key := |t.heap|], t.heap + [Entry(1, false)])
  }

  function Set(t: Table, e: nat, locked: bool): Table
    requires e < |t.heap|
  {
    t.(heap := t.heap[e := t.heap[e].(locked := locked)])
  }

  function Released(t: Table, key: string, e: nat): Table
    requires e < |t.heap|
  {
    var heap := Count(t.heap, e, -1);
    if heap[e].refs == 0 && key in t.locks && t.locks[key] == e then Table(t.locks - {key}, heap)
    else t.(heap := heap)
  }

  // ---- The entries as objects ----

  class LockEntry {
    var refs: int
    var locked: bool
    ghost const id: nat

    constructor (ghost id: nat)
      ensures refs == 0 && !locked && this.id == id
    {
      refs, locked := 0, false;
      this.id := id;
    }
  }

  class LockTable {
    var entries: map<string, LockEntry>
    ghost var made: seq<LockEntry>

    constructor ()
      ensures Valid() && View() == EMPTY
    {
      entries := map[];
      made := [];
    }

    ghost predicate Valid()
      reads this
    {
      && (forall i :: 0 <= i < |made| ==> made[i].id == i)
      && (forall k :: k in entries ==> entries[k].id < |made| && made[entries[k].id] == entries[k])
    }

    ghost function View(): Table
      reads this, made
    {
      Table(map k | k in entries :: entries[k].id,
            seq(|made|, i requires 0 <= i < |made| reads this, made => Entry(made[i].refs, made[i].locked)))
    }

    // A new entry for a key that has none.
    method Make(key: string) returns (lock: LockEntry)
      requires Valid() && key !in entries
      modifies this
      ensures Valid() && fresh(lock) && made == old(made) + [lock]
      ensures lock.id == |old(made)| && entries == old(entries)[key := lock]
      ensures View() == Table(old(View().locks)[key := lock.id], old(View().heap) + [Entry(0, false)])
    {
      lock := new LockEntry(|made|);
      entries := entries[key := lock];
      made := made + [lock];
    }

    method Retain(lock: LockEntry)
      requires Valid() && lock.id < |made| && made[lock.id] == lock
      modifies lock
      ensures Valid() && View() == old(View()).(heap := Count(old(View().heap), lock.id, 1))
    {
      lock.refs := lock.refs + 1;
    }

    method Acquire(key: string) returns (lock: LockEntry)
      requires Valid()
      modifies this, made
      ensures Valid() && WellFormed(old(View())) && View() == Acquired(old(View()), key)
      ensures lock.id == EntryFor(old(View()), key) < |made| && made[lock.id] == lock
      ensures old(made) <= made && forall e :: e in made && e !in old(made) ==> fresh(e)
    {
      if key in entries {
        lock := entries[key];
      } else {
        lock := Make(key);
      }
      Retain(lock);
    }

    // Taking the entry's mutex; a caller waits until it is free.
    method Lock(lock: LockEntry)
      requires Valid() && lock.id < |made| && made[lock.id] == lock && !lock.locked
      modifies lock
      ensures Valid() && View() == Set(old(View()), lock.id, true)
    {
      lock.locked := true;
    }

    method Unlock(lock: LockEntry)
      requires Valid() && lock.id < |made| && made[lock.id] == lock
      modifies lock
      ensures Valid() && View() == Set(old(View()), lock.id, false)
    {
      lock.locked := false;
    }

    method Release(key: string, lock: LockEntry)
      requires Valid() && lock.id < |made| && made[lock.id] == lock
      modifies this`entries, lock
      ensures Valid() && View() == Released(old(View()), key, lock.id)
    {
      lock.refs := lock.refs - 1;
      if lock.refs == 0 && key in entries && entries[key] == lock {
        entries := entries - {key};
      }
    }
  }

  // ---- Runs ----

  datatype Stage = Waiting | Inside | Leaving

  // A caller between acquire and release, with the entry it was given.
  datatype Caller = Caller(key: string, entry: nat, stage: Stage)

  type Callers = map<int, Caller>

  datatype Sys = Sys(table: Table, callers: Callers)

  datatype Label =
    | Acquire(id: int, key: string)
    | Lock(id: int)
    | Unlock(id: int)
    | Release(id: int)

  const INITIAL := Sys(EMPTY, map[])

  predicate Has(s: Sys, id: int, stage: Stage) {
    id in s.callers && s.callers[id].stage == stage && s.callers[id].entry < |s.table.heap|
  }

  function Step(s: Sys, l: Label): Sys {
    match l
    case Acquire(id, key) =>
      if id in s.callers || !WellFormed(s.table) then s
      else Sys(Acquired(s.table, key), s.callers[id := Caller(key, EntryFor(s.table, key), Waiting)])
    case Lock(id) =>
      // the mutex lets nobody in while it is locked
      if !Has(s, id, Waiting) || s.table.heap[s.callers[id].entry].locked then s
      else Sys(Set(s.table, s.callers[id].entry, true), s.callers[id := s.callers[id].(stage := Inside)])
    case Unlock(id) =>
      if !Has(s, id, Inside) then s
      else Sys(Set(s.table, s.callers[id].entry, false), s.callers[id := s.callers[id].(stage := Leaving)])
    case Release(id) =>
      if !Has(s, id, Leaving) then s
      else Sys(Released(s.table, s.callers[id].key, s.callers[id].entry), s.callers - {id})
  }

  function Exec(labels: seq<Label>): Sys {
    if labels == [] then INITIAL else Step(Exec(labels[..|labels| - 1]), labels[|labels| - 1])
  }

  function Holders(callers: Callers, e: nat): set<int> {
    set id | id in callers && callers[id].entry == e
  }

  // The caller was given the entry its key has.
  ghost predicate GivenInv(locks: map<string, nat>, c: Caller) {
    c.key in locks && locks[c.key] == c.entry
  }

  ghost predicate AllGiven(locks: map<string, nat>, callers: Callers) {
    forall id {:trigger GivenInv(locks, callers[id])} :: id in callers ==> GivenInv(locks, callers[id])
  }

  // An entry in the table is counted by its holders, of whom there are some.
  ghost predicate CountInv(heap: seq<Entry>, callers: Callers, e: nat) {
    e < |heap| && heap[e].refs == |Holders(callers, e)| > 0
  }

  ghost predicate AllCounted(t: Table, callers: Callers) {
    forall k {:trigger CountInv(t.heap, callers, t.locks[k])} :: k in t.locks ==> CountInv(t.heap, callers, t.locks[k])
  }

  ghost predicate OwnEntry(locks: map<string, nat>, j: string, k: string) {
    j in locks && k in locks && locks[j] == locks[k] ==> j == k
  }

  ghost predicate AllOwn(locks: map<string, nat>) {
    forall j, k {:trigger OwnEntry(locks, j, k)} :: OwnEntry(locks, j, k)
  }

  // A caller inside has locked its entry, and nobody else is inside with it.
  ghost predicate InsideInv(heap: seq<Entry>, callers: Callers, a: int, b: int) {
    a in callers && callers[a].stage.Inside? ==>
      && callers[a].entry < |heap| && heap[callers[a].entry].locked
      && (b in callers && callers[b].stage.Inside? && callers[b].entry == callers[a].entry ==> a == b)
  }

  ghost predicate AllInside(heap: seq<Entry>, callers: Callers) {
    forall a, b {:trigger InsideInv(heap, callers, a, b)} :: InsideInv(heap, callers, a, b)
  }

  // A locked entry of the table has somebody inside.
  ghost predicate LockedInv(heap: seq<Entry>, callers: Callers, e: nat) {
    e < |heap| && heap[e].locked ==> exists id :: id in callers && callers[id].stage.Inside? && callers[id].entry == e
  }

  ghost predicate AllLocked(t: Table, callers: Callers) {
    forall e: nat {:trigger LockedInv(t.heap, callers, e)} :: LockedInv(t.heap, callers, e)
  }

  ghost predicate Inv(s: Sys) {
    && AllGiven(s.table.locks, s.callers) && AllCounted(s.table, s.callers) && AllOwn(s.table.locks)
    && AllInside(s.table.heap, s.callers) && AllLocked(s.table, s.callers)
  }

  lemma StageKeepsHolders(callers: Callers, id: int, stage: Stage, e: nat)
    requires id in callers
    ensures Holders(callers[id := callers[id].(stage := stage)], e) == Holders(callers, e)
  {
  }

  lemma JoinAddsHolder(callers: Callers, id: int, c: Caller, e: nat)
    requires id !in callers
    ensures Holders(callers[id := c], e) == if c.entry == e then Holders(callers, e) + {id} else Holders(callers, e)
    ensures id !in Holders(callers, e)
  {
  }

  lemma LeaveDropsHolder(callers: Callers, id: int, e: nat)
    requires id in callers
    ensures Holders(callers - {id}, e) == Holders(callers, e) - {id}
    ensures id in Holders(callers, e) <==> callers[id].entry == e
  {
  }

  // ---- Acquire ----

  lemma AcquireKeepsCounts(t: Table, callers: Callers, id: int, key: string)
    requires WellFormed(t) && AllCounted(t, callers) && AllGiven(t.locks, callers) && AllOwn(t.locks) && id !in callers
    ensures AllCounted(Acquired(t, key), callers[id := Caller(key, EntryFor(t, key), Waiting)])
  {
    var t', c := Acquired(t, key), Caller(key, EntryFor(t, key), Waiting);
    var callers' := callers[id := c];
    forall k | k in t'.locks ensures CountInv(t'.heap, callers', t'.locks[k]) {
      JoinAddsHolder(callers, id, c, t'.locks[k]);
      if k in t.locks {
        assert CountInv(t.heap, callers, t.locks[k]) && OwnEntry(t.locks, k, key);
      } else {
        NobodyHoldsNewEntry(t, callers);
      }
    }
  }

  lemma NobodyHoldsNewEntry(t: Table, callers: Callers)
    requires WellFormed(t) && AllGiven(t.locks, callers)
    ensures Holders(callers, |t.heap|) == {}
  {
    assert forall id :: id in callers ==> GivenInv(t.locks, callers[id]);
  }

  lemma AcquireKeepsRest(t: Table, callers: Callers, id: int, key: string)
    requires WellFormed(t) && AllGiven(t.locks, callers) && AllOwn(t.locks) && id !in callers
    requires AllInside(t.heap, callers) && AllLocked(t, callers)
    ensures var t', callers' := Acquired(t, key), callers[id := Caller(key, EntryFor(t, key), Waiting)];
            && AllGiven(t'.locks, callers') && AllOwn(t'.locks) && AllInside(t'.heap, callers') && AllLocked(t', callers')
  {
    var t', callers' := Acquired(t, key), callers[id := Caller(key, EntryFor(t, key), Waiting)];
    forall k | k in callers' ensures GivenInv(t'.locks, callers'[k]) {
      assert k != id ==> GivenInv(t.locks, callers[k]);
    }
    forall j, k ensures OwnEntry(t'.locks, j, k) {
      assert OwnEntry(t.locks, j, k);
    }
    forall a, b ensures InsideInv(t'.heap, callers', a, b) {
      assert InsideInv(t.heap, callers, a, b);
    }
    forall e: nat ensures LockedInv(t'.heap, callers', e) {
      LockedStays(t.heap, callers, callers', e);
      assert LockedInv(t.heap, callers, e);
    }
  }

  // Whoever is inside is still there.
  lemma LockedStays(heap: seq<Entry>, callers: Callers, callers': Callers, e: nat)
    requires forall id :: id in callers && callers[id].stage.Inside? && callers[id].entry == e ==>
               id in callers' && callers'[id] == callers[id]
    requires LockedInv(heap, callers, e)
    ensures e < |heap| && heap[e].locked ==>
              exists id :: id in callers' && callers'[id].stage.Inside? && callers'[id].entry == e
  {
    if e < |heap| && heap[e].locked {
      var id :| id in callers && callers[id].stage.Inside? && callers[id].entry == e;
      assert callers'[id].entry == e;
    }
  }

  // ---- Lock and unlock ----

  lemma StageKeepsCounts(t: Table, callers: Callers, id: int, stage: Stage, locked: bool)
    requires id in callers && callers[id].entry < |t.heap| && AllCounted(t, callers) && AllGiven(t.locks, callers)
    ensures var callers' := callers[id := callers[id].(stage := stage)];
            && AllCounted(Set(t, callers[id].entry, locked), callers') && AllGiven(t.locks, callers')
  {
    var t', callers' := Set(t, callers[id].entry, locked), callers[id := callers[id].(stage := stage)];
    forall k | k in t'.locks ensures CountInv(t'.heap, callers', t'.locks[k]) {
      assert CountInv(t.heap, callers, t.locks[k]);
      StageKeepsHolders(callers, id, stage, t.locks[k]);
    }
    forall k | k in callers' ensures GivenInv(t.locks, callers'[k]) {
      assert GivenInv(t.locks, callers[k]);
    }
  }

  lemma LockKeepsInside(t: Table, callers: Callers, id: int)
    requires AllInside(t.heap, callers) && AllLocked(t, callers)
    requires id in callers && callers[id].entry < |t.heap| && !t.heap[callers[id].entry].locked
    ensures var t', callers' := Set(t, callers[id].entry, true), callers[id := callers[id].(stage := Inside)];
            AllInside(t'.heap, callers') && AllLocked(t', callers')
  {
    var t', callers' := Set(t, callers[id].entry, true), callers[id := callers[id].(stage := Inside)];
    forall a, b ensures InsideInv(t'.heap, callers', a, b) {
      assert InsideInv(t.heap, callers, a, b) && InsideInv(t.heap, callers, b, a);
    }
    forall e: nat ensures LockedInv(t'.heap, callers', e) {
      assert callers'[id].stage.Inside?;
      if e != callers[id].entry {
        assert LockedInv(t.heap, callers, e);
        LockedStays(t.heap, callers, callers', e);
      }
    }
  }

  lemma UnlockKeepsInside(t: Table, callers: Callers, id: int)
    requires AllInside(t.heap, callers) && AllLocked(t, callers)
    requires id in callers && callers[id].stage.Inside? && callers[id].entry < |t.heap|
    ensures var t', callers' := Set(t, callers[id].entry, false), callers[id := callers[id].(stage := Leaving)];
            AllInside(t'.heap, callers') && AllLocked(t', callers')
  {
    var t', callers' := Set(t, callers[id].entry, false), callers[id := callers[id].(stage := Leaving)];
    forall a, b ensures InsideInv(t'.heap, callers', a, b) {
      assert InsideInv(t.heap, callers, a, b) && InsideInv(t.heap, callers, a, id);
    }
    forall e: nat ensures LockedInv(t'.heap, callers', e) {
      if e != callers[id].entry {
        assert LockedInv(t.heap, callers, e);
        LockedStays(t.heap, callers, callers', e);
      }
    }
  }

  // ---- Release ----

  lemma ReleaseKeepsCounts(t: Table, callers: Callers, id: int)
    requires AllCounted(t, callers) && AllGiven(t.locks, callers) && AllOwn(t.locks)
    requires id in callers && callers[id].entry < |t.heap|
    ensures AllCounted(Released(t, callers[id].key, callers[id].entry), callers - {id})
  {
    var c := callers[id];
    var t', callers' := Released(t, c.key, c.entry), callers - {id};
    assert GivenInv(t.locks, c);
    forall k | k in t'.locks ensures CountInv(t'.heap, callers', t'.locks[k]) {
      assert CountInv(t.heap, callers, t.locks[k]) && OwnEntry(t.locks, k, c.key);
      LeaveDropsHolder(callers, id, t.locks[k]);
    }
  }

  lemma ReleaseKeepsGiven(t: Table, callers: Callers, id: int)
    requires AllCounted(t, callers) && AllGiven(t.locks, callers)
    requires id in callers && callers[id].entry < |t.heap|
    ensures AllGiven(Released(t, callers[id].key, callers[id].entry).locks, callers - {id})
  {
    var c := callers[id];
    var t', callers' := Released(t, c.key, c.entry), callers - {id};
    assert GivenInv(t.locks, c) && CountInv(t.heap, callers, c.entry);
    forall k | k in callers' ensures GivenInv(t'.locks, callers'[k]) {
      assert GivenInv(t.locks, callers[k]);
      if callers[k].key == c.key {
        TwoHolders(callers, id, k, c.entry);
      }
    }
  }

  lemma TwoHolders(callers: Callers, a: int, b: int, e: nat)
    requires a in Holders(callers, e) && b in Holders(callers, e) && a != b
    ensures |Holders(callers, e)| >= 2
  {
    var rest := Holders(callers, e) - {a};
    assert b in rest && |rest| == |Holders(callers, e)| - 1;
  }

  lemma ReleaseKeepsRest(t: Table, callers: Callers, id: int)
    requires AllOwn(t.locks) && AllInside(t.heap, callers) && AllLocked(t, callers)
    requires id in callers && callers[id].stage.Leaving? && callers[id].entry < |t.heap|
    ensures var t', callers' := Released(t, callers[id].key, callers[id].entry), callers - {id};
            AllOwn(t'.locks) && AllInside(t'.heap, callers') && AllLocked(t', callers')
  {
    var t', callers' := Released(t, callers[id].key, callers[id].entry), callers - {id};
    forall j, k ensures OwnEntry(t'.locks, j, k) {
      assert OwnEntry(t.locks, j, k);
    }
    forall a, b ensures InsideInv(t'.heap, callers', a, b) {
      assert InsideInv(t.heap, callers, a, b);
    }
    forall e: nat ensures LockedInv(t'.heap, callers', e) {
      assert LockedInv(t.heap, callers, e);
      LockedStays(t.heap, callers, callers', e);
    }
  }

  lemma StepKeepsInv(s: Sys, l: Label)
    requires Inv(s)
    ensures Inv(Step(s, l))
  {
    match l
    case Acquire(id, key) =>
      if id !in s.callers && WellFormed(s.table) {
        AcquireKeepsCounts(s.table, s.callers, id, key);
        AcquireKeepsRest(s.table, s.callers, id, key);
      }
    case Lock(id) =>
      if Has(s, id, Waiting) && !s.table.heap[s.callers[id].entry].locked {
        StageKeepsCounts(s.table, s.callers, id, Inside, true);
        LockKeepsInside(s.table, s.callers, id);
      }
    case Unlock(id) =>
      if Has(s, id, Inside) {
        StageKeepsCounts(s.table, s.callers, id, Leaving, false);
        UnlockKeepsInside(s.table, s.callers, id);
      }
    case Release(id) =>
      if Has(s, id, Leaving) {
        ReleaseKeepsCounts(s.table, s.callers, id);
        ReleaseKeepsGiven(s.table, s.callers, id);
        ReleaseKeepsRest(s.table, s.callers, id);
      }
  }

  lemma {:induction false} RunKeepsInv(labels: seq<Label>)
    ensures Inv(Exec(labels))
  {
    if labels != [] {
      RunKeepsInv(labels[..|labels| - 1]);
      StepKeepsInv(Exec(labels[..|labels| - 1]), labels[|labels| - 1]);
    }
  }

  /** Mutual exclusion: in every run two callers inside for one key are the same
      caller, and all callers of a key were given one entry. */
  lemma OneInsidePerKey(labels: seq<Label>, a: int, b: int)
    requires var s := Exec(labels); a in s.callers && b in s.callers && s.callers[a].key == s.callers[b].key
    ensures var s := Exec(labels);
            && s.callers[a].entry == s.callers[b].entry
            && (s.callers[a].stage.Inside? && s.callers[b].stage.Inside? ==> a == b)
  {
    RunKeepsInv(labels);
    var s := Exec(labels);
    assert GivenInv(s.table.locks, s.callers[a]) && GivenInv(s.table.locks, s.callers[b]);
    assert InsideInv(s.table.heap, s.callers, a, b);
  }

  // The callers of a key between acquire and release.
  function CallersOf(callers: Callers, key: string): set<int> {
    set id | id in callers && callers[id].key == key
  }

  /** A key has an entry exactly while some caller of it is between acquire and
      release, and the entry's refs is the number of those callers. */
  lemma EntryLivesWithCallers(labels: seq<Label>, key: string)
    ensures var s := Exec(labels);
            && (key in s.table.locks <==> CallersOf(s.callers, key) != {})
            && (key in s.table.locks ==>
                  s.table.locks[key] < |s.table.heap|
                  && s.table.heap[s.table.locks[key]].refs == |CallersOf(s.callers, key)|)
  {
    RunKeepsInv(labels);
    var s := Exec(labels);
    assert forall id :: id in s.callers ==> GivenInv(s.table.locks, s.callers[id]);
    if key in s.table.locks {
      var e := s.table.locks[key];
      assert CountInv(s.table.heap, s.callers, e);
      assert Holders(s.callers, e) == CallersOf(s.callers, key) by {
        forall id | id in s.callers ensures id in Holders(s.callers, e) <==> id in CallersOf(s.callers, key) {
          assert OwnEntry(s.table.locks, s.callers[id].key, key);
        }
      }
    }
  }

  /** Nobody waits at a mutex that nobody holds: a caller whose lock is refused
      waits for another caller of the same key that is inside. */
  lemma WaitersWaitForSomebody(labels: seq<Label>, id: int)
    requires var s := Exec(labels); Has(s, id, Waiting) && Step(s, Lock(id)) == s
    ensures var s := Exec(labels);
            exists other :: other in s.callers && s.callers[other].stage.Inside?
                            && s.callers[other].key == s.callers[id].key
  {
    RunKeepsInv(labels);
    var s := Exec(labels);
    var e := s.callers[id].entry;
    assert s.callers[id := s.callers[id].(stage := Inside)][id] != s.callers[id];
    assert LockedInv(s.table.heap, s.callers, e);
    var other :| other in s.callers && s.callers[other].stage.Inside? && s.callers[other].entry == e;
    assert GivenInv(s.table.locks, s.callers[other]) && GivenInv(s.table.locks, s.callers[id]);
    assert OwnEntry(s.table.locks, s.callers[other].key, s.callers[id].key);
  }
}
