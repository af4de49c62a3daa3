# Named application locks over a shared table — a Dafny model

The system gives mutual exclusion between process instances through one shared
table, `[dbo].[ApplicationLock]`, instead of a lock service. A lock named `n`
is held by the caller whose row `(Id, UtcTimestamp, LockName = n)` survives the
protocol of `SqlAppLock.TryAcquire`:

1. count the rows named `n`; if there are any, fail;
2. insert a row with a fresh `Guid`;
3. count again; if there is more than one, delete the caller's own row through
   `ReleaseLock` and fail.

Nothing in storage makes `LockName` unique, so exclusion rests on these steps.
The caller gets an owner token, which is the row id encrypted by `IEncryptor`.
`ReleaseLock` and `VerifyLockOwnership` decode the token and match rows on name
and id. The helpers in `DistributedLockHelpers` normalise a `TimeSpan` to an
`Int32` millisecond timeout (-1 means infinite) and shorten a lock name to a
bounded length with a hash. Every store command gets a timeout of
`timeoutMillis / 1000 + 30` seconds, or 0 (no limit) for -1.

Files and modules:

- `Wrappers.dfy`: `Option` and `Result`.
- `Text.dfy`: a .NET string as a sequence of UTF-16 code units. `String.Length`, `Substring` and the `nvarchar` width all count code units, and so does every length in the model.
- `DistributedLockHelpers.dfy`: `ToInt32Timeout` over `TimeSpan` ticks and `ToSafeLockName`.
- `LockTable.dfy`:
  - the record shape and the statements sent to the store;
  - the counts and the delete as functions, with lemmas about them;
  - the class `ApplicationLockTable`, which is the shared table. It holds a
    `seq` of records and a ghost log of the statements it received, each with
    its command timeout.
- `OwnerToken.dfy`: the owner-token codec.
  - `Encrypt`, `Decrypt`, `Guid.ToString` and `Guid.Parse` are function fields.
  - `RoundTrips()` states the reversibility the protocol relies on.
- `Locks.dfy`: `CommandTimeout`, the result types and the class `SqlAppLock`.
  - `TryAcquire` is built from its statement-level phases: `CheckPhase`,
    `InsertPhase`, `RecheckPhase` and `EvictPhase`.
  - `ReleaseLock` and `VerifyLockOwnership` are methods on the same class.
  - A ghost counter follows the connections each instance opens and never disposes.
- `Race.dfy`: racing acquirers.
  - Any number of attempts step through those phases in any interleaving over
    one table. `Step` and `Run` are the transition system.
  - The invariant proves that no two attempts hold a `Success=true` result for
    the same name.
  - `RunInterleaving` drives an arbitrary event sequence through the class's
    own phase methods and ends in the state `Run` predicts. The safety theorem
    therefore covers the methods.

Inputs the code takes from its environment are parameters of the model:

- the id `Guid.NewGuid` returns;
- the clock reading;
- the `ReturnValue` the insert and delete commands report;
- whether a connection string is configured;
- the encryptor, the Guid text form, the name sanitiser and the SHA-512/Base64 hash.

## Model

| member | source | states |
|---|---|---|
| `DistributedLockHelpers.TruncatedMilliseconds` | LockingWebApp/Locks/Utils/DistributedLockHelpers.cs:13 | the `(long)` cast of `TotalMilliseconds` truncates toward zero: for non-negative ticks `ms*10000 <= ticks < (ms+1)*10000`, for negative ticks `(ms-1)*10000 < ticks <= ms*10000` |
| `DistributedLockHelpers.ToInt32Timeout` | LockingWebApp/Locks/Utils/DistributedLockHelpers.cs:9-20 | the only error is `ArgumentOutOfRange`; an accepted timeout lies in `[-1, int.MaxValue]` |
| `DistributedLockHelpers.ToInt32TimeoutAccepts` | LockingWebApp/Locks/Utils/DistributedLockHelpers.cs:13-19 | a duration is accepted if and only if it is strictly between -2 ms and `int.MaxValue + 1` ms in ticks (so -1.5 ms becomes the infinite sentinel -1); the result is the truncated millisecond count |
| `DistributedLockHelpers.ToInt32TimeoutWholeMilliseconds` | LockingWebApp/Locks/Utils/DistributedLockHelpers.cs:13-19 | for a whole number of milliseconds it throws if and only if the count is below -1 or above `int.MaxValue`, and otherwise returns the count unchanged |
| `DistributedLockHelpers.ToSafeLockName` | LockingWebApp/Locks/Utils/DistributedLockHelpers.cs:22-45 | a null name throws `ArgumentNull`; for a non-null name it throws (`ArgumentOutOfRange`, from `Substring`) if and only if `maxNameLength < 0`; every result is at most `maxNameLength` UTF-16 code units long |
| `DistributedLockHelpers.SafeLockNamePassesValidNames` | LockingWebApp/Locks/Utils/DistributedLockHelpers.cs:27-31 | a name the sanitiser leaves unchanged and whose length in UTF-16 code units is at most `maxNameLength` is returned unchanged |
| `DistributedLockHelpers.SafeLockNameHashesOtherNames` | LockingWebApp/Locks/Utils/DistributedLockHelpers.cs:33-44 | otherwise: a hash at least `maxNameLength` long gives its first `maxNameLength` code units (length exactly `maxNameLength`); a shorter hash gives the first `min(valid.Length, max - hash.Length)` code units of the valid name followed by the whole hash; all lengths count UTF-16 code units, so the cut may split a surrogate pair as `Substring` does |
| `LockTable.CountByNameTwice` | LockingWebApp/Locks/SqlAppLock.cs:110-111 | the name counts more than one exactly when two different rows carry it |
| `LockTable.CountByName` | LockingWebApp/Locks/SqlAppLock.cs:282-296 | the availability count is positive exactly when some row has the name |
| `LockTable.CountOwned` | LockingWebApp/Locks/SqlAppLock.cs:239-257 | the owner count is positive exactly when some row has both the name and the id, and never exceeds the name's count |
| `LockTable.DeleteOwned` | LockingWebApp/Locks/SqlAppLock.cs:260-280 | the delete removes exactly as many rows as the owner count |
| `LockTable.DeleteOwnedMembers` | LockingWebApp/Locks/SqlAppLock.cs:266 | after the delete, a row remains exactly when it was there and does not match both name and id |
| `LockTable.DeleteUnownedIsIdentity` | LockingWebApp/Locks/SqlAppLock.cs:266 | deleting a (name, id) pair with no row leaves the table unchanged |
| `LockTable.DeleteAppendedRecord` | LockingWebApp/Locks/SqlAppLock.cs:305-312 | deleting the pair of a just-inserted row whose pair had no other row gives back the table from before the insert |
| `LockTable.CountByNameAppend` | LockingWebApp/Locks/SqlAppLock.cs:305-312 | an insert raises its name's count by one and leaves other names' counts alone |
| `LockTable.CountOwnedAppend` | LockingWebApp/Locks/SqlAppLock.cs:305-312 | an insert raises its own (name, id) count by one and leaves other pairs alone |
| `LockTable.TwoOwnersCount` | LockingWebApp/Locks/SqlAppLock.cs:286 | rows of two different ids under one name together never exceed the name's count |
| `LockTable.DeleteOwnedLeavesNone` | LockingWebApp/Locks/SqlAppLock.cs:266 | after the delete the (name, id) pair counts zero |
| `LockTable.DeleteOwnedNameCount` | LockingWebApp/Locks/SqlAppLock.cs:266 | the delete lowers its name's count by exactly the pair's count |
| `LockTable.DeleteOwnedOtherName` | LockingWebApp/Locks/SqlAppLock.cs:266 | the delete leaves every other name's count unchanged |
| `LockTable.DeleteOwnedOtherPair` | LockingWebApp/Locks/SqlAppLock.cs:266 | the delete leaves every other (name, id) pair's count unchanged |
| `LockTable.DeleteOwnedCounts` | LockingWebApp/Locks/SqlAppLock.cs:266 | after deleting a pair: that pair counts zero, its name's count drops by the pair's count, other names and other owners of the same name keep their counts |
| `LockTable.LockRecord` | LockingWebApp/Locks.Db/Entities/ApplicationLock.cs:13-17 | a row holds an id, a UTC timestamp and a lock name, and nothing makes the name unique |
| `LockTable.ApplicationLockTable.constructor` | LockingWebApp/Locks.Db/Configurations/ApplicationLockConfiguration.cs:18-23 | a table starts with the given rows and an empty command log |
| `LockTable.ApplicationLockTable.ExecuteCheckLockAvailability` | LockingWebApp/Locks/SqlAppLock.cs:282-296 | returns the name count, changes no row, logs one availability check with its timeout |
| `LockTable.ApplicationLockTable.ExecuteCheckApplicationLock` | LockingWebApp/Locks/SqlAppLock.cs:239-257 | returns the (name, id) count, changes no row, logs one owner check |
| `LockTable.ApplicationLockTable.ExecuteInsertApplicationLock` | LockingWebApp/Locks/SqlAppLock.cs:299-328 | appends exactly the given row and logs one insert |
| `LockTable.ApplicationLockTable.ExecuteDeleteApplicationLock` | LockingWebApp/Locks/SqlAppLock.cs:260-280 | removes exactly the rows matching name and id and logs one delete |
| `OwnerToken.OwnerCodec.Encode` | LockingWebApp/Locks/SqlAppLock.cs:107 | given a reversible encryptor and Guid text form, decoding the token issued for an id (as lines 170 and 226 do) gives back that id |
| `OwnerToken.OwnerCodec.Decode` | LockingWebApp/Locks/SqlAppLock.cs:170 | given a reversible encryptor and Guid text form, a token that does not decode was never issued for any id, so the `MalformedOwner` error only meets foreign tokens |
| `OwnerToken.OwnerCodec.EncodeInjective` | LockingWebApp/Locks/SqlAppLock.cs:107 | distinct ids never share an owner token |
| `Locks.CommandTimeout` | LockingWebApp/Locks/SqlAppLock.cs:247-252 | a negative budget (the infinite -1) gives 0; a finite budget gives `s` seconds with `s >= 30`, `(s-30)*1000 <= ms < (s-29)*1000`, and `s` fits an `int` |
| `Locks.ReleaseCommandTimeout` | LockingWebApp/Locks/SqlAppLock.cs:171-188 | release and verify, which pass 1000 ms, always use 31 seconds |
| `Locks.CommandTimeoutMonotone` | LockingWebApp/Locks/SqlAppLock.cs:288-293 | a larger finite budget never gives a shorter command timeout |
| `Locks.SafeLockNameFitsColumn` | LockingWebApp/Locks.Db/Configurations/ApplicationLockConfiguration.cs:23 | a name made safe for `MaxLockNameLength` (255) always succeeds and fits the `nvarchar(256)` column |
| `Locks.LockExists` | LockingWebApp/Locks/SqlAppLock.cs:86-88 | the availability check finds the name taken exactly when some row carries it |
| `Locks.DuplicatesExist` | LockingWebApp/Locks/SqlAppLock.cs:110-111 | the recheck finds duplicates exactly when two different rows carry the name |
| `Locks.AcquisitionResult.Fail` | LockingWebApp/Locks/SqlAppLock.cs:88 | the failed acquisition: `Success=false` with an empty `LockOwner` |
| `Locks.SqlAppLock.constructor` | LockingWebApp/Locks/SqlAppLock.cs:17-21 | an instance is bound to a shared table, a codec and a connection-string setting, with no connection open |
| `Locks.SqlAppLock.CheckPhase` | LockingWebApp/Locks/SqlAppLock.cs:86-88 | reports whether some row already has the name; the table is unchanged; one check is sent with `CommandTimeout(timeoutMillis)` |
| `Locks.SqlAppLock.InsertPhase` | LockingWebApp/Locks/SqlAppLock.cs:90-101 | adds exactly one row `(id, utc, lockName)`; success holds if and only if the reported status is 0 |
| `Locks.SqlAppLock.RecheckPhase` | LockingWebApp/Locks/SqlAppLock.cs:109-111 | reports whether more than one row has the name; the table is unchanged |
| `Locks.SqlAppLock.EvictPhase` | LockingWebApp/Locks/SqlAppLock.cs:113-118 | the caller's own token decodes to its id, so exactly the caller's `(lockName, id)` rows are deleted and every other row stays; one more connection is left open |
| `Locks.SqlAppLock.TryAcquire` | LockingWebApp/Locks/SqlAppLock.cs:62-141 | an out-of-range timeout fails before any connection or statement. Without a connection string it fails with nothing sent. A busy name gives `Fail` with the table unchanged. A non-zero insert status gives `(false, "")` with the row left behind and the connection not disposed. A duplicate on recheck gives `Fail` after deleting only the caller's own row. Within one call that runs alone this branch cannot be taken, since a free name counts one after the insert; self-eviction is established through `EvictPhase` and `Race.RunInterleaving`. Otherwise `(true, Encrypt(id.ToString()))` with the new row in place. Every command of the attempt carries `CommandTimeout(timeoutMillis)` |
| `Locks.SqlAppLock.ReleaseLock` | LockingWebApp/Locks/SqlAppLock.cs:153-207 | fails without a connection string; a token that does not parse fails with nothing changed; if no row matches name and decoded id the result is `(false, OwnerNotMatching)` with the table unchanged; otherwise exactly the matching rows are deleted and the result is `(true, Undefined)` if and only if the delete status is 0, else `(false, ReleaseError)`; the connection is never disposed |
| `Locks.SqlAppLock.VerifyLockOwnership` | LockingWebApp/Locks/SqlAppLock.cs:209-232 | changes no row; returns true if and only if some row has the name and the decoded id; sends one owner check with a 31-second timeout |
| `Locks.AcquireVerifyRelease` | LockingWebApp/Locks/SqlAppLock.cs:62-232 | a lone caller on a free name acquires, its token verifies, the release succeeds, the token no longer verifies and the table is as before |
| `Race.Step` | LockingWebApp/Locks/SqlAppLock.cs:86-118 | one phase of one attempt: only a start adds an attempt, at the end and with an unused id; checks and rechecks never write the table |
| `Race.StepFrame` | LockingWebApp/Locks/SqlAppLock.cs:86-118 | a phase touches its own attempt alone, never changes an attempt's name or id, and leaves a failed or released attempt as it is |
| `Race.BothEvictedFree` | LockingWebApp/Locks/SqlAppLock.cs:113-118 | when two owners account for every row of a name, both self-evictions leave the name free |
| `Race.InsertPreservesInv` | LockingWebApp/Locks/SqlAppLock.cs:90-101 | an insert keeps every live attempt's row and gives the inserting attempt its own |
| `Race.RecheckPreservesInv` | LockingWebApp/Locks/SqlAppLock.cs:109-113 | an attempt that counts its name once cannot share the name with a current holder |
| `Race.LeavePreservesInv` | LockingWebApp/Locks/SqlAppLock.cs:113-118 | a self-eviction or a release deletes only the leaving attempt's rows, so every other live attempt keeps its row |
| `Race.DeleteKeepsOtherLive` | LockingWebApp/Locks/SqlAppLock.cs:186-191 | deleting one attempt's (name, id) keeps the rows of every other live attempt, since attempt ids are distinct |
| `Race.StepPreservesInv` | LockingWebApp/Locks/SqlAppLock.cs:86-125 | every phase step of every attempt keeps distinct ids, live rows present, and at most one holder per name |
| `Race.RunPreservesInv` | LockingWebApp/Locks/SqlAppLock.cs:86-125 | the invariant holds after any sequence of interleaved phase steps |
| `Race.AtMostOneHolder` | LockingWebApp/Locks/SqlAppLock.cs:86-125 | from any initial table and under any interleaving, two attempts holding `Success=true` for one name are the same attempt, and a holder's row is still present (so verify answers true) |
| `Race.LoneAttemptWins` | LockingWebApp/Locks/SqlAppLock.cs:86-125 | an attempt alone on a free name reaches `Holding` with its row as the only addition |
| `Race.BothRacersCanLose` | LockingWebApp/Locks/SqlAppLock.cs:104-125 | two attempts that both check before either inserts, and both recheck before either evicts, both fail and leave the name free: no winner is guaranteed |
| `Race.RunInterleaving` | LockingWebApp/Locks/SqlAppLock.cs:86-125 | running any event sequence through `CheckPhase`, `InsertPhase`, `RecheckPhase`, `EvictPhase` and `ReleaseLock` leaves the table and attempts exactly as `Run` says, with at most one holder per name |

## Left out

- Database I/O is replaced by the in-memory `ApplicationLockTable`. This covers `SqlConnection`, `DbCommand`, the SQL text and `ExecuteScalar`/`ExecuteNonQuery`. Each statement runs atomically.
- Exceptions the store itself raises (connectivity, command timeout expiry, a null `ReturnValue` cast to `int`) are not modelled.
- CountByName: names match by exact equality of their UTF-16 code units. SQL Server's `=` on `nvarchar` ignores trailing spaces, and under a case-insensitive collation (the code does not set one) it ignores case as well. So `"job"` and `"job "` are one lock in the store and two locks in the model. Mutual exclusion is proved for names equal as code-unit sequences.
- CountOwned: matches the name exactly, as `CountByName` does.
- DeleteOwned: matches the name exactly, as `CountByName` does.
- ExecuteInsertApplicationLock: accepts a name longer than the column's 256 code units (ApplicationLockConfiguration.cs:23) and an id already present, although `Id` is the primary key (ApplicationLockConfiguration.cs:20). The store rejects both with an error. `Guid.NewGuid` is taken to return a fresh id.
- The insert and delete `ReturnValue`s are inputs. Nothing in the code says when they are non-zero.
  - The model runs the INSERT and DELETE statement regardless and uses the status only for the reported result. This follows the code, which executes the statement and then reads the value.
  - So an insert with a non-zero status leaves its row behind. A delete with a non-zero status has still removed the row.
- Connections are a ghost counter of connections opened and never disposed.
  - The counter follows the code: `Cleanup` is skipped after a non-zero insert status, and `ReleaseLock` and `VerifyLockOwnership` never dispose their connection.
  - The "transaction had been disposed" branch cannot be reached, because `GetConnection` always returns a new connection.
  - A missing connection string is the `hasConnectionString = false` case, in which the "connection is not open" check throws.
- The encryptor (`Encryptor` is not part of this model; only `IEncryptor` is), `Guid.ToString` and `Guid.Parse` are function parameters.
  - Their reversibility is the predicate `OwnerCodec.RoundTrips()`, which `TryAcquire`, the eviction and the race driver require.
  - A token that fails to parse is the `MalformedOwner` error.
- SHA-512 (FIPS 180-4) followed by Base64 (section 4 of RFC 4648) in `ToSafeLockName` is the function parameter `hash`.
- `ToSafeLockName`: the sanitiser `convertToValidName` is a total function to non-null strings. A sanitiser returning null, which makes the code throw a null-reference exception, is not modelled.
- `ToInt32Timeout`: `TimeSpan.TotalMilliseconds` is a double. The model divides the tick count exactly and truncates toward zero, so double rounding is not modelled. The `paramName` carried by the exception is not modelled.
- Time handling is out of scope: `DateTime.Now`, `ConvertToUtc` and the `yyyy-MM-dd HH:mm:ss` formatting of the timestamp. The timestamp is an input and is never read back.
- The ADO parameter builders (`CreateParameter`, `CreateStringParameter`, `CreateDateParameter`, `CreateUniqueidentityParameter` and `SqlHelpers`) are left out.
- The second copy of `ToInt32Timeout` in `IAppLock.cs` is identical and is modelled once.
- `LockAcquisitionResult`, `LockReleaseResult` and `ReleaseLockFailure` are not part of this model. `LockAcquisitionResult.Fail` is taken to be `Success=false` with an empty `LockOwner`.
- The store returns counts as unbounded integers. The `(int)` cast of `ExecuteScalar` cannot overflow for a real table.
- Entity Framework, dependency injection, configuration loading, the web controller and the `ILock`/`IDisposableShim` wrappers are plumbing around the core and are left out.
- Real multi-process concurrency is expressed only as interleavings of statement-level steps. Each step is one availability check, one insert, or one owner check with its delete.
  - In `Race`, `ReleaseLock` (its owner check plus its delete) is one step. Only the attempt that owns an id ever deletes that id's rows, so splitting the step changes no outcome.
  - Releases are made by the holding attempt with its own token. A release of a holder's row by another party that knows the token is not modelled.
- `TryAcquire` enforces neither `MaxLockNameLength` (255) nor the column width (256). The model does not add such a check.

## Behaviour of the code

Four properties of the code are worth stating outright:

- Nothing in the code makes one of several racing acquirers win. Both can count two on the recheck and both evict themselves (`Race.BothRacersCanLose`). The model proves that at most one wins (`Race.AtMostOneHolder`).
- Connections are left open after a non-zero insert status (SqlAppLock.cs:100) and in every `ReleaseLock` and `VerifyLockOwnership` call (SqlAppLock.cs:156-232).
- A non-zero insert status does not undo the insert: the row is written at SqlAppLock.cs:96 before the status is read at :99.
- A non-zero delete status does not undo the delete: the rows are removed at SqlAppLock.cs:190 before the status is read at :193.
