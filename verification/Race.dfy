/** Racing acquirers. Each acquisition attempt moves through TryAcquire's
    phases (check, insert, recheck) and, once it holds the lock, releases it;
    the attempts share one table and their phases interleave in any order.
    The step of each phase is the one SqlAppLock's phase methods perform. */
module Race {
  import opened Text
  import opened DistributedLockHelpers
  import opened LockTable
  import opened OwnerToken
  import opened Locks

  /** Where an attempt stands: `Inserted` has its record in the table and has
      not rechecked yet; `Evicting` counted a duplicate and has not deleted its
      record yet; `Holding` returned Success=true and has not released. */
  datatype Phase = Ready | Checked | Inserted | Evicting | Holding | Failed | Released

  datatype Attempt = Attempt(lockName: ClrString, id: Guid, phase: Phase)

  datatype World = World(table: seq<LockRecord>, attempts: seq<Attempt>)

  /** One step of one attempt (`i` indexes the attempts). `Begin` starts an
      attempt whose id Guid.NewGuid made; the status fields are the
      ReturnValues the insert and delete report. */
  datatype Event =
    | Begin(lockName: ClrString, id: Guid)
    | Check(i: nat)
    | Insert(i: nat, utc: Timestamp, insertStatus: int)
    | Recheck(i: nat)
    | Evict(i: nat, evictStatus: int)
    | Release(i: nat, deleteStatus: int)

  predicate IdInUse(attempts: seq<Attempt>, id: Guid) {
    exists k | 0 <= k < |attempts| :: attempts[k].id == id
  }

  predicate InPhase(w: World, i: nat, p: Phase) {
    i < |w.attempts| && w.attempts[i].phase == p
  }

  /** The effect of one event; an event whose attempt is not in the phase it
      applies to changes nothing. Only `Begin` adds an attempt, at the end, and
      only with an id no attempt uses; checks never write the table. */
  function Step(w: World, e: Event): (w': World)
    ensures |w'.attempts| == |w.attempts| + (if e.Begin? && !IdInUse(w.attempts, e.id) then 1 else 0)
    ensures e.Begin? && !IdInUse(w.attempts, e.id) ==>
              w'.attempts[|w.attempts|] == Attempt(e.lockName, e.id, Ready)
    ensures e.Begin? || e.Check? || e.Recheck? ==> w'.table == w.table
  {
    match e
    case Begin(lockName, id) =>
      if IdInUse(w.attempts, id) then w
      else World(w.table, w.attempts + [Attempt(lockName, id, Ready)])
    case Check(i) =>
      if !InPhase(w, i, Ready) then w
      else
        var a := w.attempts[i];
        World(w.table, w.attempts[i := a.(phase := if LockExists(w.table, a.lockName) then Failed else Checked)])
    case Insert(i, utc, insertStatus) =>
      if !InPhase(w, i, Checked) then w
      else
        var a := w.attempts[i];
        World(w.table + [LockRecord(a.id, utc, a.lockName)],
              w.attempts[i := a.(phase := if insertStatus == 0 then Inserted else Failed)])
    case Recheck(i) =>
      if !InPhase(w, i, Inserted) then w
      else
        var a := w.attempts[i];
        World(w.table, w.attempts[i := a.(phase := if DuplicatesExist(w.table, a.lockName) then Evicting else Holding)])
    case Evict(i, _) =>
      if !InPhase(w, i, Evicting) then w
      else
        var a := w.attempts[i];
        World(DeleteOwned(w.table, a.lockName, a.id), w.attempts[i := a.(phase := Failed)])
    case Release(i, _) =>
      if !InPhase(w, i, Holding) then w
      else
        var a := w.attempts[i];
        World(DeleteOwned(w.table, a.lockName, a.id), w.attempts[i := a.(phase := Released)])
  }

  /** An event touches its own attempt alone, never changes an attempt's name
      or id, and leaves an attempt that has failed or released as it is. */
  lemma StepFrame(w: World, e: Event, k: nat)
    requires k < |w.attempts|
    ensures Step(w, e).attempts[k].lockName == w.attempts[k].lockName
    ensures Step(w, e).attempts[k].id == w.attempts[k].id
    ensures e.Begin? || k != e.i ==> Step(w, e).attempts[k] == w.attempts[k]
    ensures w.attempts[k].phase == Failed || w.attempts[k].phase == Released ==>
              Step(w, e).attempts[k] == w.attempts[k]
  {
  }

  /** The world after a sequence of events. */
  function Run(w: World, events: seq<Event>): (w': World)
    decreases |events|
  {
    if events == [] then w
    else Run(Step(w, events[0]), events[1..])
  }

  /** No attempt is under way yet; the table may hold anything. */
  function Initial(t: seq<LockRecord>): (w: World) {
    World(t, [])
  }

  ghost predicate DistinctIds(w: World) {
    forall i, j :: 0 <= i < |w.attempts| && 0 <= j < |w.attempts| &&
      w.attempts[i].id == w.attempts[j].id
      ==> i == j
  }

  predicate Live(p: Phase) {
    p == Inserted || p == Evicting || p == Holding
  }

  /** An attempt that has inserted and not yet left keeps its record. */
  ghost predicate LiveRecordsPresent(w: World) {
    forall i :: 0 <= i < |w.attempts| && Live(w.attempts[i].phase) ==>
      Owns(w.table, w.attempts[i].lockName, w.attempts[i].id)
  }

  /** No two attempts hold a Success=true result for the same name. */
  ghost predicate MutualExclusion(w: World) {
    forall i, j :: 0 <= i < |w.attempts| && 0 <= j < |w.attempts| &&
      w.attempts[i].phase == Holding && w.attempts[j].phase == Holding &&
      w.attempts[i].lockName == w.attempts[j].lockName
      ==> i == j
  }

  ghost predicate Inv(w: World) {
    DistinctIds(w) && LiveRecordsPresent(w) && MutualExclusion(w)
  }

  /** Deleting attempt i's (name, id) keeps every other live attempt's record. */
  lemma DeleteKeepsOtherLive(w: World, i: nat, t': seq<LockRecord>)
    requires Inv(w) && i < |w.attempts|
    requires t' == DeleteOwned(w.table, w.attempts[i].lockName, w.attempts[i].id)
    ensures forall j :: 0 <= j < |w.attempts| && j != i && Live(w.attempts[j].phase) ==>
              Owns(t', w.attempts[j].lockName, w.attempts[j].id)
  {
    var a := w.attempts[i];
    forall j | 0 <= j < |w.attempts| && j != i && Live(w.attempts[j].phase)
      ensures Owns(t', w.attempts[j].lockName, w.attempts[j].id)
    {
      DeleteOwnedCounts(w.table, a.lockName, a.id, w.attempts[j].lockName, w.attempts[j].id);
    }
  }

  /** Inserting attempt i's record keeps every live record and gives attempt
      i its own. */
  lemma InsertPreservesInv(w: World, i: nat, utc: Timestamp, insertStatus: int)
    requires Inv(w)
    ensures Inv(Step(w, Insert(i, utc, insertStatus)))
  {
    var w' := Step(w, Insert(i, utc, insertStatus));
    if InPhase(w, i, Checked) {
      var a := w.attempts[i];
      var r := LockRecord(a.id, utc, a.lockName);
      forall j | 0 <= j < |w'.attempts| && Live(w'.attempts[j].phase)
        ensures Owns(w'.table, w'.attempts[j].lockName, w'.attempts[j].id)
      {
        CountOwnedAppend(w.table, r, w'.attempts[j].lockName, w'.attempts[j].id);
      }
    }
  }

  /** The recheck is where mutual exclusion is won: an attempt that counts its
      name once cannot share the name with a holder, because the holder's
      record and its own would make two. */
  lemma RecheckPreservesInv(w: World, i: nat)
    requires Inv(w)
    ensures Inv(Step(w, Recheck(i)))
  {
    if InPhase(w, i, Inserted) {
      var a := w.attempts[i];
      if !DuplicatesExist(w.table, a.lockName) {
        forall j | 0 <= j < |w.attempts| && j != i && w.attempts[j].phase == Holding
          ensures w.attempts[j].lockName != a.lockName
        {
          if w.attempts[j].lockName == a.lockName {
            TwoOwnersCount(w.table, a.lockName, a.id, w.attempts[j].id);
          }
        }
      }
    }
  }

  /** An eviction or a release deletes only the leaving attempt's own records. */
  lemma LeavePreservesInv(w: World, e: Event)
    requires Inv(w) && (e.Evict? || e.Release?)
    ensures Inv(Step(w, e))
  {
    var p := if e.Evict? then Evicting else Holding;
    if InPhase(w, e.i, p) {
      var a := w.attempts[e.i];
      DeleteKeepsOtherLive(w, e.i, DeleteOwned(w.table, a.lockName, a.id));
    }
  }

  /** Every event keeps the invariant. */
  lemma StepPreservesInv(w: World, e: Event)
    requires Inv(w)
    ensures Inv(Step(w, e))
  {
    match e
    case Begin(lockName, id) =>
    case Check(i) =>
    case Insert(i, utc, insertStatus) => InsertPreservesInv(w, i, utc, insertStatus);
    case Recheck(i) => RecheckPreservesInv(w, i);
    case Evict(_, _) => LeavePreservesInv(w, e);
    case Release(_, _) => LeavePreservesInv(w, e);
  }

  lemma {:induction false} RunPreservesInv(w: World, events: seq<Event>)
    requires Inv(w)
    ensures Inv(Run(w, events))
    decreases |events|
  {
    if events != [] {
      StepPreservesInv(w, events[0]);
      RunPreservesInv(Step(w, events[0]), events[1..]);
    }
  }

  /** Safety under every interleaving: two attempts that both hold a
      Success=true result for one name are the same attempt, and a holder's
      record is still in the table (so VerifyLockOwnership answers true). */
  lemma AtMostOneHolder(t: seq<LockRecord>, events: seq<Event>, i: nat, j: nat)
    requires var w := Run(Initial(t), events);
             i < |w.attempts| && j < |w.attempts| &&
             w.attempts[i].phase == Holding && w.attempts[j].phase == Holding &&
             w.attempts[i].lockName == w.attempts[j].lockName
    ensures i == j
    ensures var w := Run(Initial(t), events);
            Owns(w.table, w.attempts[i].lockName, w.attempts[i].id)
  {
    RunPreservesInv(Initial(t), events);
  }

  /** An attempt alone on a free name wins. */
  lemma LoneAttemptWins(t: seq<LockRecord>, lockName: ClrString, id: Guid, utc: Timestamp)
    requires !LockExists(t, lockName)
    ensures var w := Run(Initial(t), [Begin(lockName, id), Check(0), Insert(0, utc, 0), Recheck(0)]);
            |w.attempts| == 1 && w.attempts[0].phase == Holding &&
            w.table == t + [LockRecord(id, utc, lockName)]
  {
    var es := [Begin(lockName, id), Check(0), Insert(0, utc, 0), Recheck(0)];
    var r := LockRecord(id, utc, lockName);
    var w1 := World(t, [Attempt(lockName, id, Ready)]);
    var w2 := World(t, [Attempt(lockName, id, Checked)]);
    var w3 := World(t + [r], [Attempt(lockName, id, Inserted)]);
    var w4 := World(t + [r], [Attempt(lockName, id, Holding)]);
    assert Step(Initial(t), es[0]) == w1;
    assert Step(w1, es[1]) == w2;
    assert Step(w2, es[2]) == w3;
    CountByNameAppend(t, r, lockName);
    assert Step(w3, es[3]) == w4;
    assert Run(w4, es[4..]) == w4;
    assert Run(w3, es[3..]) == w4;
    assert Run(w2, es[2..]) == w4;
    assert Run(w1, es[1..]) == w4;
  }

  /** Two attempts that both check before either inserts, and both recheck
      before either evicts, both count two and both evict themselves: the
      protocol does not promise that one of them wins. */
  lemma BothRacersCanLose(t: seq<LockRecord>, lockName: ClrString, a: Guid, b: Guid, utc: Timestamp)
    requires !LockExists(t, lockName) && a != b
    ensures var w := Run(Initial(t), [Begin(lockName, a), Begin(lockName, b), Check(0), Check(1),
                                      Insert(0, utc, 0), Insert(1, utc, 0), Recheck(0), Recheck(1),
                                      Evict(0, 0), Evict(1, 0)]);
            |w.attempts| == 2 && w.attempts[0].phase == Failed && w.attempts[1].phase == Failed &&
            !LockExists(w.table, lockName)
  {
    var es := [Begin(lockName, a), Begin(lockName, b), Check(0), Check(1),
               Insert(0, utc, 0), Insert(1, utc, 0), Recheck(0), Recheck(1), Evict(0, 0), Evict(1, 0)];
    BothCheckFirst(t, lockName, a, b);
    RunConcat(Initial(t), es[..4], es[4..]);
    assert es[..4] == [Begin(lockName, a), Begin(lockName, b), Check(0), Check(1)];
    assert es[4..] == [Insert(0, utc, 0), Insert(1, utc, 0), Recheck(0), Recheck(1), Evict(0, 0), Evict(1, 0)];
    assert es[..4] + es[4..] == es;
    BothInsertRecheckEvict(t, lockName, a, b, utc);
  }

  lemma {:induction false} RunConcat(w: World, xs: seq<Event>, ys: seq<Event>)
    ensures Run(w, xs + ys) == Run(Run(w, xs), ys)
    decreases |xs|
  {
    if xs == [] {
      assert xs + ys == ys;
    } else {
      assert (xs + ys)[1..] == xs[1..] + ys;
      RunConcat(Step(w, xs[0]), xs[1..], ys);
    }
  }

  lemma BothCheckFirst(t: seq<LockRecord>, lockName: ClrString, a: Guid, b: Guid)
    requires !LockExists(t, lockName) && a != b
    ensures Run(Initial(t), [Begin(lockName, a), Begin(lockName, b), Check(0), Check(1)]) ==
            World(t, [Attempt(lockName, a, Checked), Attempt(lockName, b, Checked)])
  {
    var es := [Begin(lockName, a), Begin(lockName, b), Check(0), Check(1)];
    var w1 := World(t, [Attempt(lockName, a, Ready)]);
    var w2 := World(t, [Attempt(lockName, a, Ready), Attempt(lockName, b, Ready)]);
    var w3 := World(t, [Attempt(lockName, a, Checked), Attempt(lockName, b, Ready)]);
    var w4 := World(t, [Attempt(lockName, a, Checked), Attempt(lockName, b, Checked)]);
    assert Run(w4, es[4..]) == w4;
    assert Run(w3, es[3..]) == w4 by { assert Step(w3, es[3]) == w4; }
    assert Run(w2, es[2..]) == w4 by { assert Step(w2, es[2]) == w3; }
    assert Run(w1, es[1..]) == w4 by { assert Step(w1, es[1]) == w2; }
    assert Step(Initial(t), es[0]) == w1;
  }

  lemma BothInsertRecheckEvict(t: seq<LockRecord>, lockName: ClrString, a: Guid, b: Guid, utc: Timestamp)
    requires !LockExists(t, lockName) && a != b
    ensures var w := Run(World(t, [Attempt(lockName, a, Checked), Attempt(lockName, b, Checked)]),
                         [Insert(0, utc, 0), Insert(1, utc, 0), Recheck(0), Recheck(1), Evict(0, 0), Evict(1, 0)]);
            |w.attempts| == 2 && w.attempts[0].phase == Failed && w.attempts[1].phase == Failed &&
            !LockExists(w.table, lockName)
  {
    var es := [Insert(0, utc, 0), Insert(1, utc, 0), Recheck(0), Recheck(1), Evict(0, 0), Evict(1, 0)];
    var w0 := World(t, [Attempt(lockName, a, Checked), Attempt(lockName, b, Checked)]);
    var ra := LockRecord(a, utc, lockName);
    var rb := LockRecord(b, utc, lockName);
    var w4 := BothInsertAndRecheck(t, lockName, a, b, utc);
    CountOwnedAppend(t, ra, lockName, a);
    CountOwnedAppend(t + [ra], rb, lockName, a);
    CountOwnedAppend(t, ra, lockName, b);
    CountOwnedAppend(t + [ra], rb, lockName, b);
    CountByNameAppend(t, ra, lockName);
    CountByNameAppend(t + [ra], rb, lockName);
    var w6 := BothEvict(t + [ra] + [rb], lockName, a, b);
    RunConcat(w0, es[..4], es[4..]);
    assert es[..4] == [Insert(0, utc, 0), Insert(1, utc, 0), Recheck(0), Recheck(1)];
    assert es[4..] == [Evict(0, 0), Evict(1, 0)];
    assert es[..4] + es[4..] == es;
  }

  lemma BothInsertAndRecheck(t: seq<LockRecord>, lockName: ClrString, a: Guid, b: Guid, utc: Timestamp)
    returns (w4: World)
    requires !LockExists(t, lockName) && a != b
    ensures w4 == Run(World(t, [Attempt(lockName, a, Checked), Attempt(lockName, b, Checked)]),
                      [Insert(0, utc, 0), Insert(1, utc, 0), Recheck(0), Recheck(1)])
    ensures w4 == World(t + [LockRecord(a, utc, lockName)] + [LockRecord(b, utc, lockName)],
                        [Attempt(lockName, a, Evicting), Attempt(lockName, b, Evicting)])
  {
    var ra := LockRecord(a, utc, lockName);
    var rb := LockRecord(b, utc, lockName);
    var t2 := t + [ra] + [rb];
    CountByNameAppend(t, ra, lockName);
    CountByNameAppend(t + [ra], rb, lockName);
    assert DuplicatesExist(t2, lockName);
    var w0 := World(t, [Attempt(lockName, a, Checked), Attempt(lockName, b, Checked)]);
    RunTwo(w0, Insert(0, utc, 0), Insert(1, utc, 0));
    var w1 := Step(w0, Insert(0, utc, 0));
    assert w1 == World(t + [ra], [Attempt(lockName, a, Inserted), Attempt(lockName, b, Checked)]);
    var w2 := Step(w1, Insert(1, utc, 0));
    assert w2 == World(t2, [Attempt(lockName, a, Inserted), Attempt(lockName, b, Inserted)]);
    RunTwo(w2, Recheck(0), Recheck(1));
    var w3 := Step(w2, Recheck(0));
    assert w3 == World(t2, [Attempt(lockName, a, Evicting), Attempt(lockName, b, Inserted)]);
    w4 := Step(w3, Recheck(1));
    assert w4 == World(t2, [Attempt(lockName, a, Evicting), Attempt(lockName, b, Evicting)]);
    RunConcat(w0, [Insert(0, utc, 0), Insert(1, utc, 0)], [Recheck(0), Recheck(1)]);
    assert [Insert(0, utc, 0), Insert(1, utc, 0)] + [Recheck(0), Recheck(1)] ==
           [Insert(0, utc, 0), Insert(1, utc, 0), Recheck(0), Recheck(1)];
  }

  lemma BothEvict(t2: seq<LockRecord>, lockName: ClrString, a: Guid, b: Guid) returns (w6: World)
    requires a != b && CountOwned(t2, lockName, a) == CountByName(t2, lockName) - 1
    requires CountOwned(t2, lockName, b) == 1
    ensures w6 == Run(World(t2, [Attempt(lockName, a, Evicting), Attempt(lockName, b, Evicting)]),
                      [Evict(0, 0), Evict(1, 0)])
    ensures |w6.attempts| == 2 && w6.attempts[0].phase == Failed && w6.attempts[1].phase == Failed
    ensures !LockExists(w6.table, lockName)
  {
    var w4 := World(t2, [Attempt(lockName, a, Evicting), Attempt(lockName, b, Evicting)]);
    RunTwo(w4, Evict(0, 0), Evict(1, 0));
    var w5 := Step(w4, Evict(0, 0));
    assert w5.table == DeleteOwned(t2, lockName, a);
    assert |w5.attempts| == 2 && w5.attempts[0].phase == Failed && w5.attempts[1] == w4.attempts[1];
    w6 := Step(w5, Evict(1, 0));
    assert w6.table == DeleteOwned(w5.table, lockName, b);
    BothEvictedFree(t2, lockName, a, b);
  }

  lemma RunTwo(w: World, e1: Event, e2: Event)
    ensures Run(w, [e1, e2]) == Step(Step(w, e1), e2)
  {
    var w2 := Step(Step(w, e1), e2);
    assert [e2][1..] == [];
    assert Run(Step(w, e1), [e2]) == Run(w2, []) == w2;
    assert [e1, e2][1..] == [e2];
  }

  /** When two owners account for every record of a name, deleting both
      frees the name. */
  lemma BothEvictedFree(t2: seq<LockRecord>, lockName: ClrString, a: Guid, b: Guid)
    requires a != b && CountOwned(t2, lockName, a) == CountByName(t2, lockName) - 1
    requires CountOwned(t2, lockName, b) == 1
    ensures !LockExists(DeleteOwned(DeleteOwned(t2, lockName, a), lockName, b), lockName)
  {
    DeleteOwnedNameCount(t2, lockName, a);
    DeleteOwnedOtherPair(t2, lockName, a, lockName, b);
    var t3 := DeleteOwned(t2, lockName, a);
    DeleteOwnedNameCount(t3, lockName, b);
  }

  /** Runs the events through SqlAppLock's own phase methods on one shared
      table: Check is CheckPhase, Insert is InsertPhase, Recheck is
      RecheckPhase, Evict is EvictPhase with the token TryAcquire encoded,
      Release is ReleaseLock with that token. The table and the attempts end as Run says, so
      AtMostOneHolder applies to the methods' outcomes. */
  method RunInterleaving(lock: SqlAppLock, events: seq<Event>, timeoutMillis: Int32)
    returns (attempts: seq<Attempt>)
    requires lock.hasConnectionString && lock.codec.RoundTrips()
    modifies lock, lock.store
    ensures World(lock.store.records, attempts) == Run(Initial(old(lock.store.records)), events)
    ensures MutualExclusion(World(lock.store.records, attempts))
  {
    ghost var t0 := lock.store.records;
    attempts := [];
    assert events[0..] == events;
    var n := 0;
    while n < |events|
      invariant 0 <= n <= |events|
      invariant Run(World(lock.store.records, attempts), events[n..]) == Run(Initial(t0), events)
    {
      var w := World(lock.store.records, attempts);
      var e := events[n];
      match e {
        case Begin(lockName, id) =>
          if !IdInUse(attempts, id) {
            attempts := attempts + [Attempt(lockName, id, Ready)];
          }
        case Check(i) =>
          if InPhase(w, i, Ready) {
            var a := attempts[i];
            var lockExists := lock.CheckPhase(a.lockName, timeoutMillis);
            attempts := attempts[i := a.(phase := if lockExists then Failed else Checked)];
          }
        case Insert(i, utc, insertStatus) =>
          if InPhase(w, i, Checked) {
            var a := attempts[i];
            var success := lock.InsertPhase(a.lockName, timeoutMillis, a.id, utc, insertStatus);
            attempts := attempts[i := a.(phase := if success then Inserted else Failed)];
          }
        case Recheck(i) =>
          if InPhase(w, i, Inserted) {
            var a := attempts[i];
            var duplicatesExist := lock.RecheckPhase(a.lockName, timeoutMillis);
            attempts := attempts[i := a.(phase := if duplicatesExist then Evicting else Holding)];
          }
        case Evict(i, evictStatus) =>
          if InPhase(w, i, Evicting) {
            var a := attempts[i];
            lock.EvictPhase(a.lockName, a.id, lock.codec.Encode(a.id), evictStatus);
            attempts := attempts[i := a.(phase := Failed)];
          }
        case Release(i, deleteStatus) =>
          if InPhase(w, i, Holding) {
            var a := attempts[i];
            var _ := lock.ReleaseLock(a.lockName, lock.codec.Encode(a.id), deleteStatus);
            attempts := attempts[i := a.(phase := Released)];
          }
      }
      assert events[n..][1..] == events[n + 1..];
      n := n + 1;
    }
    RunPreservesInv(Initial(t0), events);
  }
}
