/** SqlAppLock: named locks held as rows of the shared ApplicationLock table.
    TryAcquire is split into its three phases (check, insert, recheck) so that
    racing acquirers can be written as interleavings of those phases. */
module Locks {
  import opened Text
  import opened Wrappers
  import opened DistributedLockHelpers
  import opened LockTable
  import opened OwnerToken

  /** SqlAppLock.MaxLockNameLength; the LockName column itself is nvarchar(256).
      TryAcquire enforces neither. */
  const MaxLockNameLength: int := 255
  const LockNameColumnWidth: int := 256

  /** Release and verify build their commands with a fixed 1000 ms budget. */
  const ReleaseTimeoutMillis: Int32 := 1000

  /** The CommandTimeout, in seconds, every Create*Command builder derives from
      the millisecond budget: the budget in whole seconds plus a 30-second
      buffer, or 0 (no limit) for the infinite budget. */
  function CommandTimeout(timeoutMillis: Int32): (seconds: int)
    ensures timeoutMillis < 0 ==> seconds == 0
    ensures timeoutMillis >= 0 ==>
              30 <= seconds <= MaxInt32 &&
              (seconds - 30) * 1000 <= timeoutMillis < (seconds - 29) * 1000
  {
    if timeoutMillis >= 0 then timeoutMillis / 1000 + 30 else 0
  }

  /** Release and verify always wait 31 seconds. */
  lemma ReleaseCommandTimeout()
    ensures CommandTimeout(ReleaseTimeoutMillis) == 31
  {
  }

  /** A larger finite budget never gives a shorter command timeout. */
  lemma CommandTimeoutMonotone(a: Int32, b: Int32)
    requires 0 <= a <= b
    ensures CommandTimeout(a) <= CommandTimeout(b)
  {
  }

  /** A name shortened to MaxLockNameLength always fits the nvarchar(256)
      LockName column, whose width counts UTF-16 code units. */
  lemma SafeLockNameFitsColumn(name: ClrString, convertToValidName: ClrString -> ClrString, hash: ClrString -> ClrString)
    ensures var r := ToSafeLockName(Some(name), MaxLockNameLength, convertToValidName, hash);
            r.Success? && |r.value| < LockNameColumnWidth
  {
  }

  /** LockAcquisitionResult. */
  datatype AcquisitionResult = AcquisitionResult(success: bool, lockOwner: ClrString)
  {
    /** LockAcquisitionResult.Fail */
    static const Fail := AcquisitionResult(false, [])
  }

  /** ReleaseLockFailure. */
  datatype ReleaseLockFailure = Undefined | OwnerNotMatching | ReleaseError

  /** LockReleaseResult. */
  datatype ReleaseResult = ReleaseResult(success: bool, reason: ReleaseLockFailure)

  /** The exceptions the three operations let escape: the timeout range check,
      a connection that is not open, and an owner token Guid.Parse rejects. */
  datatype LockError = TimeoutOutOfRange | ConnectionNotOpen | MalformedOwner

  /** The first check of TryAcquire: some record already has this name. */
  predicate LockExists(t: seq<LockRecord>, lockName: ClrString): (found: bool)
    ensures found <==> Named(t, lockName)
  {
    CountByName(t, lockName) > 0
  }

  /** The recheck of TryAcquire: more than one record has this name. */
  predicate DuplicatesExist(t: seq<LockRecord>, lockName: ClrString): (duplicates: bool)
    ensures duplicates <==> NamedTwice(t, lockName)
  {
    CountByNameTwice(t, lockName);
    CountByName(t, lockName) > 1
  }

  /** The statements ReleaseLock sends for a decoded id: the owner check, and
      the delete when the check found a record. */
  ghost function ReleaseCommands(t: seq<LockRecord>, lockName: ClrString, id: Guid): (commands: seq<Command>)
  {
    [Command(CheckApplicationLock(lockName, id), CommandTimeout(ReleaseTimeoutMillis))] +
    if Owns(t, lockName, id) then [Command(DeleteApplicationLock(lockName, id), CommandTimeout(ReleaseTimeoutMillis))]
    else []
  }

  /** One SqlAppLock instance (one process). Several instances share one
      `store`. `hasConnectionString` is false when the configuration gives no
      connection string; `openConnections` counts the connections this
      instance opened and never disposed. */
  class SqlAppLock {
    const store: ApplicationLockTable
    const codec: OwnerCodec
    const hasConnectionString: bool
    ghost var openConnections: nat

    constructor (store: ApplicationLockTable, codec: OwnerCodec, hasConnectionString: bool)
      ensures this.store == store && this.codec == codec
      ensures this.hasConnectionString == hasConnectionString
      ensures openConnections == 0
    {
      this.store := store;
      this.codec := codec;
      this.hasConnectionString := hasConnectionString;
      openConnections := 0;
    }

    /** Phase 1: count the records with this name. */
    method CheckPhase(lockName: ClrString, timeoutMillis: Int32) returns (lockExists: bool)
      modifies store
      ensures lockExists == LockExists(old(store.records), lockName)
      ensures store.records == old(store.records)
      ensures store.commands == old(store.commands) +
                [Command(CheckLockAvailability(lockName), CommandTimeout(timeoutMillis))]
    {
      var count := store.ExecuteCheckLockAvailability(lockName, CommandTimeout(timeoutMillis));
      lockExists := count > 0;
    }

    /** Phase 2: insert a record with the fresh id. The statement runs whatever
        the ReturnValue it reports; `insertStatus` is that value. */
    method InsertPhase(lockName: ClrString, timeoutMillis: Int32, id: Guid, utc: Timestamp, insertStatus: int)
      returns (success: bool)
      modifies store
      ensures success <==> insertStatus == 0
      ensures store.records == old(store.records) + [LockRecord(id, utc, lockName)]
      ensures store.commands == old(store.commands) +
                [Command(InsertApplicationLock(LockRecord(id, utc, lockName)), CommandTimeout(timeoutMillis))]
    {
      store.ExecuteInsertApplicationLock(LockRecord(id, utc, lockName), CommandTimeout(timeoutMillis));
      var ret := insertStatus;
      success := ret == 0;
    }

    /** Phase 3: count again after the insert. */
    method RecheckPhase(lockName: ClrString, timeoutMillis: Int32) returns (duplicatesExist: bool)
      modifies store
      ensures duplicatesExist == DuplicatesExist(old(store.records), lockName)
      ensures store.records == old(store.records)
      ensures store.commands == old(store.commands) +
                [Command(CheckLockAvailability(lockName), CommandTimeout(timeoutMillis))]
    {
      var count := store.ExecuteCheckLockAvailability(lockName, CommandTimeout(timeoutMillis));
      duplicatesExist := count > 1;
    }

    /** Self-eviction after a duplicate: ReleaseLock with the caller's own
        token, its result ignored. The token decodes to the caller's id, so
        exactly the caller's own records go. */
    method EvictPhase(lockName: ClrString, ghost id: Guid, owner: ClrString, evictStatus: int)
      requires hasConnectionString && codec.RoundTrips()
      requires owner == codec.Encode(id)
      modifies this, store
      ensures store.records == DeleteOwned(old(store.records), lockName, id)
      ensures store.commands == old(store.commands) + ReleaseCommands(old(store.records), lockName, id)
      ensures openConnections == old(openConnections) + 1
    {
      var _ := ReleaseLock(lockName, owner, evictStatus);
    }

    /** TryAcquire(lockName, timeout). The timeout is a TimeSpan given in ticks;
        `freshId` is what Guid.NewGuid returns, `utc` the clock reading, and
        `insertStatus`/`evictStatus` the ReturnValues the insert and the
        self-evicting delete report. */
    method TryAcquire(lockName: ClrString, timeoutTicks: int, freshId: Guid, utc: Timestamp,
                      insertStatus: int, evictStatus: int)
      returns (r: Result<AcquisitionResult, LockError>)
      requires codec.RoundTrips()
      modifies this, store
      // the timeout is checked before a connection is made or a statement sent
      ensures ToInt32Timeout(timeoutTicks).Failure? ==>
                && r == Failure(TimeoutOutOfRange)
                && store.records == old(store.records) && store.commands == old(store.commands)
                && openConnections == old(openConnections)
      ensures ToInt32Timeout(timeoutTicks).Success? && !hasConnectionString ==>
                && r == Failure(ConnectionNotOpen)
                && store.records == old(store.records) && store.commands == old(store.commands)
                && openConnections == old(openConnections)
      ensures ToInt32Timeout(timeoutTicks).Success? && hasConnectionString ==>
                var seconds := CommandTimeout(ToInt32Timeout(timeoutTicks).value);
                var t := old(store.records);
                var inserted := t + [LockRecord(freshId, utc, lockName)];
                var check := [Command(CheckLockAvailability(lockName), seconds)];
                var insert := [Command(InsertApplicationLock(LockRecord(freshId, utc, lockName)), seconds)];
                if LockExists(t, lockName) then
                  && r == Success(AcquisitionResult.Fail)
                  && store.records == t
                  && store.commands == old(store.commands) + check
                  && openConnections == old(openConnections)
                else if insertStatus != 0 then
                  // cleanup is false: the connection is never disposed
                  && r == Success(AcquisitionResult(false, []))
                  && store.records == inserted
                  && store.commands == old(store.commands) + check + insert
                  && openConnections == old(openConnections) + 1
                else if DuplicatesExist(inserted, lockName) then
                  && r == Success(AcquisitionResult.Fail)
                  && store.records == DeleteOwned(inserted, lockName, freshId)
                  && store.commands == old(store.commands) + check + insert + check +
                                       ReleaseCommands(inserted, lockName, freshId)
                  && openConnections == old(openConnections) + 1
                else
                  && r == Success(AcquisitionResult(true, codec.Encode(freshId)))
                  && store.records == inserted
                  && store.commands == old(store.commands) + check + insert + check
                  && openConnections == old(openConnections)
    {
      var timeout := ToInt32Timeout(timeoutTicks);
      if timeout.Failure? {
        return Failure(TimeoutOutOfRange);
      }
      var timeoutMillis := timeout.value;
      var cleanup := true;
      if !hasConnectionString {
        // the new connection is not opened, so the state check throws;
        // Cleanup returns early without a connection string
        return Failure(ConnectionNotOpen);
      }
      openConnections := openConnections + 1;

      var lockExists := CheckPhase(lockName, timeoutMillis);
      if lockExists {
        r := Success(AcquisitionResult.Fail);
      } else {
        var success := InsertPhase(lockName, timeoutMillis, freshId, utc, insertStatus);
        cleanup := success;
        var owner: ClrString := [];
        if success {
          owner := codec.Encode(freshId);
          var duplicatesExist := RecheckPhase(lockName, timeoutMillis);
          if duplicatesExist {
            EvictPhase(lockName, freshId, owner, evictStatus);
            r := Success(AcquisitionResult.Fail);
          } else {
            r := Success(AcquisitionResult(success, owner));
          }
        } else {
          r := Success(AcquisitionResult(success, owner));
        }
      }
      if cleanup {
        openConnections := openConnections - 1;
      }
    }

    /** ReleaseLock(lockName, lockOwner); `deleteStatus` is the ReturnValue the
        delete reports. The connection is opened and never disposed. */
    method ReleaseLock(lockName: ClrString, lockOwner: ClrString, deleteStatus: int)
      returns (r: Result<ReleaseResult, LockError>)
      modifies this, store
      ensures !hasConnectionString ==>
                && r == Failure(ConnectionNotOpen)
                && store.records == old(store.records) && store.commands == old(store.commands)
                && openConnections == old(openConnections)
      ensures hasConnectionString ==> openConnections == old(openConnections) + 1
      ensures hasConnectionString && codec.Decode(lockOwner).None? ==>
                && r == Failure(MalformedOwner)
                && store.records == old(store.records) && store.commands == old(store.commands)
      ensures hasConnectionString && codec.Decode(lockOwner).Some? ==>
                var id := codec.Decode(lockOwner).value;
                var t := old(store.records);
                && store.records == DeleteOwned(t, lockName, id)
                && store.commands == old(store.commands) + ReleaseCommands(t, lockName, id)
                && (!Owns(t, lockName, id) ==>
                      r == Success(ReleaseResult(false, OwnerNotMatching)) && store.records == t)
                && (Owns(t, lockName, id) ==>
                      && r.Success?
                      && (r.value.success <==> deleteStatus == 0)
                      && r.value.reason == (if deleteStatus == 0 then Undefined else ReleaseError))
    {
      if !hasConnectionString {
        return Failure(ConnectionNotOpen);
      }
      openConnections := openConnections + 1;
      var decoded := codec.Decode(lockOwner);
      if decoded.None? {
        return Failure(MalformedOwner);
      }
      var id := decoded.value;
      var count := store.ExecuteCheckApplicationLock(lockName, id, CommandTimeout(ReleaseTimeoutMillis));
      var lockExists := count > 0;
      if !lockExists {
        DeleteUnownedIsIdentity(store.records, lockName, id);
        return Success(ReleaseResult(false, OwnerNotMatching));
      }
      store.ExecuteDeleteApplicationLock(lockName, id, CommandTimeout(ReleaseTimeoutMillis));
      var success := deleteStatus == 0;
      r := if success then Success(ReleaseResult(true, Undefined))
           else Success(ReleaseResult(false, ReleaseError));
    }

    /** VerifyLockOwnership(lockName, lockOwner): reads the table, changes no
        record; the connection is opened and never disposed. */
    method VerifyLockOwnership(lockName: ClrString, lockOwner: ClrString) returns (r: Result<bool, LockError>)
      modifies this, store
      ensures store.records == old(store.records)
      ensures !hasConnectionString ==>
                && r == Failure(ConnectionNotOpen)
                && store.commands == old(store.commands) && openConnections == old(openConnections)
      ensures hasConnectionString ==> openConnections == old(openConnections) + 1
      ensures hasConnectionString && codec.Decode(lockOwner).None? ==>
                r == Failure(MalformedOwner) && store.commands == old(store.commands)
      ensures hasConnectionString && codec.Decode(lockOwner).Some? ==>
                var id := codec.Decode(lockOwner).value;
                && r == Success(Owns(old(store.records), lockName, id))
                && store.commands == old(store.commands) +
                     [Command(CheckApplicationLock(lockName, id), CommandTimeout(ReleaseTimeoutMillis))]
    {
      if !hasConnectionString {
        return Failure(ConnectionNotOpen);
      }
      openConnections := openConnections + 1;
      var decoded := codec.Decode(lockOwner);
      if decoded.None? {
        return Failure(MalformedOwner);
      }
      var id := decoded.value;
      var count := store.ExecuteCheckApplicationLock(lockName, id, CommandTimeout(ReleaseTimeoutMillis));
      r := Success(count > 0);
    }
  }

  /** One caller alone on a free name: TryAcquire with the default (zero)
      timeout succeeds, its token verifies, releasing it succeeds, the token
      no longer verifies and the name is free again for the next TryAcquire. */
  method AcquireVerifyRelease(lock: SqlAppLock, lockName: ClrString, freshId: Guid, utc: Timestamp)
    returns (acquired: AcquisitionResult, heldBefore: bool, released: ReleaseResult, heldAfter: bool)
    requires lock.hasConnectionString && lock.codec.RoundTrips()
    requires !LockExists(lock.store.records, lockName)
    modifies lock, lock.store
    ensures acquired == AcquisitionResult(true, lock.codec.Encode(freshId))
    ensures heldBefore && !heldAfter
    ensures released == ReleaseResult(true, Undefined)
    ensures lock.store.records == old(lock.store.records)
  {
    ghost var t := lock.store.records;
    var record := LockRecord(freshId, utc, lockName);
    CountByNameAppend(t, record, lockName);
    CountOwnedAppend(t, record, lockName, freshId);
    assert CountOwned(t, lockName, freshId) == 0;
    var r := lock.TryAcquire(lockName, 0, freshId, utc, 0, 0);
    acquired := r.value;
    var v := lock.VerifyLockOwnership(lockName, acquired.lockOwner);
    heldBefore := v.value;
    var rel := lock.ReleaseLock(lockName, acquired.lockOwner, 0);
    released := rel.value;
    DeleteOwnedCounts(t + [record], lockName, freshId, lockName, freshId);
    var v2 := lock.VerifyLockOwnership(lockName, acquired.lockOwner);
    heldAfter := v2.value;
    DeleteUnownedIsIdentity(t, lockName, freshId);
    assert DeleteOwned(t + [record], lockName, freshId) == t by {
      DeleteAppendedRecord(t, record);
    }
  }
}
