/** The shared [dbo].[ApplicationLock] table: its record shape, the counts and
    the delete the lock protocol issues against it, and the table itself as a
    mutable object that every process instance shares. */
module LockTable {
  import opened Text

  /** A System.Guid: a 128-bit value. */
  const GuidBound: int := 0x1_0000_0000_0000_0000_0000_0000_0000_0000
  type Guid = x: int | 0 <= x < GuidBound

  /** A UTC DateTime; the protocol writes it and never reads it back. */
  type Timestamp = int

  /** One row of the table (entity ApplicationLock). Nothing makes LockName unique. */
  datatype LockRecord = LockRecord(id: Guid, utcTimestamp: Timestamp, lockName: ClrString)

  /** The statements the lock protocol sends to the store. */
  datatype CommandKind =
    | CheckLockAvailability(lockName: ClrString)
    | CheckApplicationLock(lockName: ClrString, owner: Guid)
    | InsertApplicationLock(record: LockRecord)
    | DeleteApplicationLock(lockName: ClrString, owner: Guid)

  /** A statement together with the command timeout, in seconds, it was sent with. */
  datatype Command = Command(kind: CommandKind, timeoutSeconds: int)

  /** Some record has this name and this id. */
  ghost predicate Owns(t: seq<LockRecord>, lockName: ClrString, id: Guid) {
    exists k :: 0 <= k < |t| && t[k].lockName == lockName && t[k].id == id
  }

  /** Some record has this name. */
  ghost predicate Named(t: seq<LockRecord>, lockName: ClrString) {
    exists k :: 0 <= k < |t| && t[k].lockName == lockName
  }

  /** Two different records have this name. */
  ghost predicate NamedTwice(t: seq<LockRecord>, lockName: ClrString) {
    exists i, j :: 0 <= i < j < |t| && t[i].lockName == lockName && t[j].lockName == lockName
  }

  /** `select count(*) ... where [LockName] = @lockName` */
  function CountByName(t: seq<LockRecord>, lockName: ClrString): (n: nat)
    ensures n <= |t|
    ensures n > 0 <==> Named(t, lockName)
  {
    if t == [] then 0
    else
      var rest := CountByName(t[1..], lockName);
      assert Named(t[1..], lockName) ==> Named(t, lockName) by {
        if Named(t[1..], lockName) {
          var k :| 0 <= k < |t[1..]| && t[1..][k].lockName == lockName;
          assert t[k + 1].lockName == lockName;
        }
      }
      (if t[0].lockName == lockName then 1 else 0) + rest
  }

  /** `select COUNT(*) ... where [LockName] = @lockName and [Id] = @owner` */
  function CountOwned(t: seq<LockRecord>, lockName: ClrString, id: Guid): (n: nat)
    ensures n <= CountByName(t, lockName)
    ensures n > 0 <==> Owns(t, lockName, id)
  {
    if t == [] then 0
    else
      var rest := CountOwned(t[1..], lockName, id);
      assert Owns(t[1..], lockName, id) ==> Owns(t, lockName, id) by {
        if Owns(t[1..], lockName, id) {
          var k :| 0 <= k < |t[1..]| && t[1..][k].lockName == lockName && t[1..][k].id == id;
          assert t[k + 1].lockName == lockName && t[k + 1].id == id;
        }
      }
      (if t[0].lockName == lockName && t[0].id == id then 1 else 0) + rest
  }

  /** `delete ... where [LockName] = @lockName and [Id] = @owner`: the table
      with exactly the records matching both removed, in their original order. */
  function DeleteOwned(t: seq<LockRecord>, lockName: ClrString, id: Guid): (t': seq<LockRecord>)
    ensures |t'| == |t| - CountOwned(t, lockName, id)
  {
    if t == [] then []
    else if t[0].lockName == lockName && t[0].id == id then DeleteOwned(t[1..], lockName, id)
    else [t[0]] + DeleteOwned(t[1..], lockName, id)
  }

  /** The name counts more than one exactly when two different records carry it. */
  lemma {:induction false} CountByNameTwice(t: seq<LockRecord>, lockName: ClrString)
    ensures CountByName(t, lockName) > 1 <==> NamedTwice(t, lockName)
  {
    if t != [] {
      var rest := t[1..];
      CountByNameTwice(rest, lockName);
      if NamedTwice(rest, lockName) {
        var i, j :| 0 <= i < j < |rest| && rest[i].lockName == lockName && rest[j].lockName == lockName;
        assert t[i + 1].lockName == lockName && t[j + 1].lockName == lockName;
      }
      if NamedTwice(t, lockName) {
        var i, j :| 0 <= i < j < |t| && t[i].lockName == lockName && t[j].lockName == lockName;
        if i == 0 {
          assert rest[j - 1].lockName == lockName;
          assert Named(rest, lockName);
        } else {
          assert rest[i - 1].lockName == lockName && rest[j - 1].lockName == lockName;
        }
      }
      if CountByName(t, lockName) > 1 && !NamedTwice(rest, lockName) {
        assert t[0].lockName == lockName && Named(rest, lockName);
        var k :| 0 <= k < |rest| && rest[k].lockName == lockName;
        assert t[k + 1].lockName == lockName;
      }
    }
  }

  /** The records left by the delete are exactly those that do not match
      both the name and the id. */
  lemma {:induction false} DeleteOwnedMembers(t: seq<LockRecord>, lockName: ClrString, id: Guid, r: LockRecord)
    ensures r in DeleteOwned(t, lockName, id) <==> r in t && !(r.lockName == lockName && r.id == id)
  {
    if t != [] {
      DeleteOwnedMembers(t[1..], lockName, id, r);
      assert t == [t[0]] + t[1..];
    }
  }

  /** Deleting a pair that owns no record leaves the table as it was. */
  lemma {:induction false} DeleteUnownedIsIdentity(t: seq<LockRecord>, lockName: ClrString, id: Guid)
    requires !Owns(t, lockName, id)
    ensures DeleteOwned(t, lockName, id) == t
  {
    if t != [] {
      DeleteUnownedIsIdentity(t[1..], lockName, id);
      assert t == [t[0]] + t[1..];
    }
  }

  /** Appending a record raises the count of its name by one and leaves
      every other name's count alone. */
  lemma {:induction false} CountByNameAppend(t: seq<LockRecord>, r: LockRecord, lockName: ClrString)
    ensures CountByName(t + [r], lockName) ==
            CountByName(t, lockName) + (if r.lockName == lockName then 1 else 0)
  {
    if t != [] {
      assert (t + [r])[1..] == t[1..] + [r];
      CountByNameAppend(t[1..], r, lockName);
    }
  }

  /** Appending a record raises the count of its own (name, id) by one and
      leaves every other pair's count alone. */
  lemma {:induction false} CountOwnedAppend(t: seq<LockRecord>, r: LockRecord, lockName: ClrString, id: Guid)
    ensures CountOwned(t + [r], lockName, id) ==
            CountOwned(t, lockName, id) + (if r.lockName == lockName && r.id == id then 1 else 0)
  {
    if t != [] {
      assert (t + [r])[1..] == t[1..] + [r];
      CountOwnedAppend(t[1..], r, lockName, id);
    }
  }

  /** Deleting the (name, id) of a record appended to a table where that pair
      owns nothing gives back the table as it was. */
  lemma {:induction false} DeleteAppendedRecord(t: seq<LockRecord>, r: LockRecord)
    requires !Owns(t, r.lockName, r.id)
    ensures DeleteOwned(t + [r], r.lockName, r.id) == t
  {
    if t == [] {
      assert [r][1..] == [];
    } else {
      assert (t + [r])[1..] == t[1..] + [r];
      DeleteAppendedRecord(t[1..], r);
      assert t == [t[0]] + t[1..];
    }
  }

  /** Two different owners of one name together account for at most the
      name's count: if both own a record, the name counts at least two. */
  lemma {:induction false} TwoOwnersCount(t: seq<LockRecord>, lockName: ClrString, a: Guid, b: Guid)
    requires a != b
    ensures CountOwned(t, lockName, a) + CountOwned(t, lockName, b) <= CountByName(t, lockName)
  {
    if t != [] {
      TwoOwnersCount(t[1..], lockName, a, b);
    }
  }

  /** After the delete the pair owns nothing. */
  lemma {:induction false} DeleteOwnedLeavesNone(t: seq<LockRecord>, lockName: ClrString, id: Guid)
    ensures CountOwned(DeleteOwned(t, lockName, id), lockName, id) == 0
  {
    if t != [] {
      DeleteOwnedLeavesNone(t[1..], lockName, id);
    }
  }

  /** The delete lowers its name's count by exactly the pair's count. */
  lemma {:induction false} DeleteOwnedNameCount(t: seq<LockRecord>, lockName: ClrString, id: Guid)
    ensures CountByName(DeleteOwned(t, lockName, id), lockName) ==
            CountByName(t, lockName) - CountOwned(t, lockName, id)
  {
    if t != [] {
      DeleteOwnedNameCount(t[1..], lockName, id);
    }
  }

  /** The delete leaves every other name's count alone. */
  lemma {:induction false} DeleteOwnedOtherName(t: seq<LockRecord>, lockName: ClrString, id: Guid, otherName: ClrString)
    requires otherName != lockName
    ensures CountByName(DeleteOwned(t, lockName, id), otherName) == CountByName(t, otherName)
  {
    if t != [] {
      DeleteOwnedOtherName(t[1..], lockName, id, otherName);
    }
  }

  /** The delete leaves every other pair's count alone. */
  lemma {:induction false} DeleteOwnedOtherPair(t: seq<LockRecord>, lockName: ClrString, id: Guid,
                                                otherName: ClrString, otherId: Guid)
    requires otherName != lockName || otherId != id
    ensures CountOwned(DeleteOwned(t, lockName, id), otherName, otherId) == CountOwned(t, otherName, otherId)
  {
    if t != [] {
      DeleteOwnedOtherPair(t[1..], lockName, id, otherName, otherId);
    }
  }

  /** Deleting the records of one (name, id) removes exactly that pair's
      records: the pair is left with none, another name keeps its count, and
      another owner of the same name keeps its records. */
  lemma DeleteOwnedCounts(t: seq<LockRecord>, lockName: ClrString, id: Guid,
                          otherName: ClrString, otherId: Guid)
    ensures CountOwned(DeleteOwned(t, lockName, id), lockName, id) == 0
    ensures CountByName(DeleteOwned(t, lockName, id), lockName) ==
            CountByName(t, lockName) - CountOwned(t, lockName, id)
    ensures otherName != lockName ==>
              CountByName(DeleteOwned(t, lockName, id), otherName) == CountByName(t, otherName)
    ensures (otherName, otherId) != (lockName, id) ==>
              CountOwned(DeleteOwned(t, lockName, id), otherName, otherId) == CountOwned(t, otherName, otherId)
  {
    DeleteOwnedLeavesNone(t, lockName, id);
    DeleteOwnedNameCount(t, lockName, id);
    if otherName != lockName {
      DeleteOwnedOtherName(t, lockName, id, otherName);
    }
    if (otherName, otherId) != (lockName, id) {
      DeleteOwnedOtherPair(t, lockName, id, otherName, otherId);
    }
  }

  /** The table every process instance sees: the rows it holds and, as a ghost
      log, the statements sent to it with their command timeouts. Each
      statement runs alone; a count observes every earlier statement. */
  class ApplicationLockTable {
    var records: seq<LockRecord>
    ghost var commands: seq<Command>

    constructor (initial: seq<LockRecord>)
      ensures records == initial && commands == []
    {
      records := initial;
      commands := [];
    }

    method ExecuteCheckLockAvailability(lockName: ClrString, timeoutSeconds: int) returns (count: nat)
      modifies this
      ensures count == CountByName(records, lockName)
      ensures records == old(records)
      ensures commands == old(commands) + [Command(CheckLockAvailability(lockName), timeoutSeconds)]
    {
      count := CountByName(records, lockName);
      commands := commands + [Command(CheckLockAvailability(lockName), timeoutSeconds)];
    }

    method ExecuteCheckApplicationLock(lockName: ClrString, owner: Guid, timeoutSeconds: int) returns (count: nat)
      modifies this
      ensures count == CountOwned(records, lockName, owner)
      ensures records == old(records)
      ensures commands == old(commands) + [Command(CheckApplicationLock(lockName, owner), timeoutSeconds)]
    {
      count := CountOwned(records, lockName, owner);
      commands := commands + [Command(CheckApplicationLock(lockName, owner), timeoutSeconds)];
    }

    method ExecuteInsertApplicationLock(record: LockRecord, timeoutSeconds: int)
      modifies this
      ensures records == old(records) + [record]
      ensures commands == old(commands) + [Command(InsertApplicationLock(record), timeoutSeconds)]
    {
      records := records + [record];
      commands := commands + [Command(InsertApplicationLock(record), timeoutSeconds)];
    }

    method ExecuteDeleteApplicationLock(lockName: ClrString, owner: Guid, timeoutSeconds: int)
      modifies this
      ensures records == DeleteOwned(old(records), lockName, owner)
      ensures commands == old(commands) + [Command(DeleteApplicationLock(lockName, owner), timeoutSeconds)]
    {
      records := DeleteOwned(records, lockName, owner);
      commands := commands + [Command(DeleteApplicationLock(lockName, owner), timeoutSeconds)];
    }
  }
}
