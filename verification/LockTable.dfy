/** The `locks` table and the statements run on it. Times are microseconds on the one
    clock that the service and the database share. */
module LockTable {
  import opened Wrappers

  const LOCK_DURATION: int := 30 * 60 * 1_000_000

  datatype Row = Row(lockId: string, expiresAt: int, createdAt: int)

  // At most one row per file: the unique constraint on file_id.
  type Table = map<string, Row>

  // The writing statements, with their parameters other than the file.
  datatype Stmt =
    | Insert(lockId: string, expiresAt: int, createdAt: int)             // UpsertLock
    | Extend(lockId: string, expiresAt: int)                             // UpdateLockExpiry
    | Swap(oldId: string, newId: string, expiresAt: int)                 // UpdateLockIDAndExpiry
    | Delete(lockId: string)                                             // DeleteLockByFileID
    | Take(oldId: string, newId: string, createdAt: int, expiresAt: int) // TakeoverLock

  // FindLockByFileID: the row, if it has not expired.
  function Find(rows: Table, now: int, file: string): Option<Row> {
    if file in rows && rows[file].expiresAt > now then Some(rows[file]) else None
  }

  // The lock ID in force on a file.
  function Holder(rows: Table, now: int, file: string): Option<string> {
    var found := Find(rows, now, file);
    if found.Some? then Some(found.value.lockId) else None
  }

  predicate Carries(rows: Table, file: string, lockId: string) {
    file in rows && rows[file].lockId == lockId
  }

  // Whether the statement affects a row. Only Extend and Swap look at the expiry.
  predicate Matches(stmt: Stmt, rows: Table, now: int, file: string) {
    match stmt
    case Insert(_, _, _) => true
    case Extend(id, _) => Carries(rows, file, id) && rows[file].expiresAt > now
    case Swap(id, _, _) => Carries(rows, file, id) && rows[file].expiresAt > now
    case Delete(id) => Carries(rows, file, id)
    case Take(id, _, _, _) => Carries(rows, file, id)
  }

  function Apply(stmt: Stmt, rows: Table, now: int, file: string): Table {
    if !Matches(stmt, rows, now, file) then rows else
    match stmt
    case Insert(id, expires, created) =>
      // A conflict on file_id keeps the created_at of the row that was there.
      rows[file := Row(id, expires, if file in rows then rows[file].createdAt else created)]
    case Extend(_, expires) => rows[file := rows[file].(expiresAt := expires)]
    case Swap(_, id, expires) => rows[file := rows[file].(lockId := id, expiresAt := expires)]
    case Delete(_) => rows - {file}
    case Take(_, id, created, expires) => rows[file := Row(id, expires, created)]
  }

  // DeleteExpiredLocks.
  function Sweep(rows: Table, now: int): Table {
    map file | file in rows && rows[file].expiresAt >= now :: rows[file]
  }

  // How a call to the database fares: it works, or it reports an error, the
  // statement having run to its end or not at all.
  datatype Link = Up | DownBefore | DownAfter

  datatype RepoResult = Done | Stale | Broken

  /** LockRepository over one table. `now` is the database's now() at the statement. */
  class LockRepository {
    var rows: Table

    constructor ()
      ensures rows == map[]
    {
      rows := map[];
    }

    method FindByFileID(now: int, fileID: string, link: Link) returns (found: Option<Row>, failed: bool)
      ensures failed == (link != Up)
      ensures found == if failed then None else Find(rows, now, fileID)
      ensures found.Some? <==> !failed && fileID in rows && rows[fileID].expiresAt > now
      ensures found.Some? ==> found.value == rows[fileID]
    {
      if link != Up {
        return None, true;
      }
      if fileID in rows && rows[fileID].expiresAt > now {
        return Some(rows[fileID]), false;
      }
      return None, false;
    }

    // Every conditional write ends here: no affected row means a stale lock.
    function Report(link: Link, affected: bool): RepoResult {
      if link != Up then Broken else if affected then Done else Stale
    }

    method Create(now: int, fileID: string, lockID: string, expiresAt: int, createdAt: int, link: Link)
      returns (res: RepoResult)
      modifies this
      ensures var stmt := Insert(lockID, expiresAt, createdAt);
              rows == if link == DownBefore then old(rows) else Apply(stmt, old(rows), now, fileID)
      ensures link != DownBefore ==>
                var since := if fileID in old(rows) then old(rows)[fileID].createdAt else createdAt;
                rows == old(rows)[fileID := Row(lockID, expiresAt, since)]
      ensures link == DownBefore ==> rows == old(rows)
      ensures res == if link == Up then Done else Broken
    {
      if link != DownBefore {
        if fileID in rows {
          var row := rows[fileID];
          rows := rows[fileID := row.(lockId := lockID, expiresAt := expiresAt)];
        } else {
          rows := rows[fileID := Row(lockID, expiresAt, createdAt)];
        }
      }
      res := Report(link, true);
    }

    method RefreshExpiry(now: int, fileID: string, lockID: string, expiresAt: int, link: Link)
      returns (res: RepoResult)
      modifies this
      ensures var stmt := Extend(lockID, expiresAt);
              && rows == (if link == DownBefore then old(rows) else Apply(stmt, old(rows), now, fileID))
              && (res == Done <==> link == Up && Matches(stmt, old(rows), now, fileID))
              && (res == Broken <==> link != Up)
      ensures var found := fileID in old(rows) && old(rows)[fileID].lockId == lockID
                           && old(rows)[fileID].expiresAt > now;
              && rows == (if link != DownBefore && found
                          then old(rows)[fileID := Row(lockID, expiresAt, old(rows)[fileID].createdAt)] else old(rows))
              && res == (if link != Up then Broken else if found then Done else Stale)
    {
      var affected := link != DownBefore && fileID in rows
                      && rows[fileID].lockId == lockID && rows[fileID].expiresAt > now;
      if affected {
        rows := rows[fileID := rows[fileID].(expiresAt := expiresAt)];
      }
      res := Report(link, affected);
    }

    method UpdateLockID(now: int, fileID: string, currentID: string, newID: string, expiresAt: int, link: Link)
      returns (res: RepoResult)
      modifies this
      ensures var stmt := Swap(currentID, newID, expiresAt);
              && rows == (if link == DownBefore then old(rows) else Apply(stmt, old(rows), now, fileID))
              && (res == Done <==> link == Up && Matches(stmt, old(rows), now, fileID))
              && (res == Broken <==> link != Up)
      ensures var found := fileID in old(rows) && old(rows)[fileID].lockId == currentID
                           && old(rows)[fileID].expiresAt > now;
              && rows == (if link != DownBefore && found
                          then old(rows)[fileID := Row(newID, expiresAt, old(rows)[fileID].createdAt)] else old(rows))
              && res == (if link != Up then Broken else if found then Done else Stale)
    {
      var affected := link != DownBefore && fileID in rows
                      && rows[fileID].lockId == currentID && rows[fileID].expiresAt > now;
      if affected {
        rows := rows[fileID := rows[fileID].(lockId := newID, expiresAt := expiresAt)];
      }
      res := Report(link, affected);
    }

    method DeleteByFileID(now: int, fileID: string, lockID: string, link: Link) returns (res: RepoResult)
      modifies this
      ensures var stmt := Delete(lockID);
              && rows == (if link == DownBefore then old(rows) else Apply(stmt, old(rows), now, fileID))
              && (res == Done <==> link == Up && Matches(stmt, old(rows), now, fileID))
              && (res == Broken <==> link != Up)
      ensures var found := fileID in old(rows) && old(rows)[fileID].lockId == lockID;
              && rows == (if link != DownBefore && found
                          then old(rows) - {fileID} else old(rows))
              && res == (if link != Up then Broken else if found then Done else Stale)
    {
      var affected := link != DownBefore && fileID in rows && rows[fileID].lockId == lockID;
      if affected {
        rows := rows - {fileID};
      }
      res := Report(link, affected);
    }

    method Takeover(now: int, fileID: string, oldID: string, newID: string, createdAt: int, expiresAt: int, link: Link)
      returns (res: RepoResult)
      modifies this
      ensures var stmt := Take(oldID, newID, createdAt, expiresAt);
              && rows == (if link == DownBefore then old(rows) else Apply(stmt, old(rows), now, fileID))
              && (res == Done <==> link == Up && Matches(stmt, old(rows), now, fileID))
              && (res == Broken <==> link != Up)
      ensures var found := fileID in old(rows) && old(rows)[fileID].lockId == oldID;
              && rows == (if link != DownBefore && found
                          then old(rows)[fileID := Row(newID, expiresAt, createdAt)] else old(rows))
              && res == (if link != Up then Broken else if found then Done else Stale)
    {
      var affected := link != DownBefore && fileID in rows && rows[fileID].lockId == oldID;
      if affected {
        rows := rows[fileID := Row(newID, expiresAt, createdAt)];
      }
      res := Report(link, affected);
    }

    method DeleteExpired(now: int, link: Link) returns (deleted: nat)
      modifies this
      ensures rows == if link == DownBefore then old(rows) else Sweep(old(rows), now)
      ensures forall f :: f in rows <==> f in old(rows) && (link != DownBefore ==> old(rows)[f].expiresAt >= now)
      ensures forall f :: f in rows ==> rows[f] == old(rows)[f]
      ensures deleted == if link != Up then 0 else |old(rows)| - |rows|
    {
      if link == DownBefore {
        return 0;
      }
      var before := rows;
      rows := map file | file in rows && rows[file].expiresAt >= now :: rows[file];
      assert rows.Keys <= before.Keys;
      SubsetSize(rows.Keys, before.Keys);
      assert |rows.Keys| == |rows| && |before.Keys| == |before|;
      deleted := if link != Up then 0 else |before| - |rows|;
    }
  }

  lemma SubsetSize<T>(a: set<T>, b: set<T>)
    requires a <= b
    ensures |a| <= |b|
  {
    assert b == a + (b - a);
  }
}
