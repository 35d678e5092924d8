/** WOPIService as it is written, one method per operation, with the rest of the world
    running between its database calls. Every execution of these methods is a run of the
    state machine of LockProtocol, so what is proved of all runs holds of them. */
module WopiService {
  import opened Wrappers
  import opened LockTable
  import opened LockProtocol
  import opened Permissions
  import Tokens

  // A step of another call leaves this one where it is.
  lemma NotMine(maxLifetime: int, s: State, e: Event, mine: nat)
    requires !((e.Begin? || e.Advance?) && e.c == mine)
    ensures var t := Step(maxLifetime, s, e);
            && (mine in t.calls <==> mine in s.calls)
            && (mine in t.calls ==> t.calls[mine] == s.calls[mine])
  {
  }

  class WOPIService {
    const lockRepo: LockRepository
    const maxLockLifetime: int
    var now: int
    var contents: map<string, nat>
    var calls: map<nat, Call>  // the calls of all request goroutines, finished ones included
    var steps: nat
    ghost var events: seq<Event>

    function View(): State
      reads this, lockRepo
    {
      State(now, lockRepo.rows, contents, calls, steps)
    }

    ghost predicate Valid()
      reads this, lockRepo
    {
      View() == Exec(maxLockLifetime, events)
    }

    // Call c ran from beginning to end after the run `before`, with this outcome.
    ghost predicate Completed(before: seq<Event>, c: nat, file: string, op: Op, outcome: Outcome)
      reads this, lockRepo
    {
      && Valid() && before <= events
      && c in calls && calls[c].file == file && calls[c].op == op && calls[c].pc == Finished(outcome)
      && calls[c].begun >= |before|
    }

    constructor (repo: LockRepository, maxLifetime: int)
      requires repo.rows == map[]
      ensures Valid() && lockRepo == repo && maxLockLifetime == maxLifetime && events == []
    {
      lockRepo, maxLockLifetime := repo, maxLifetime;
      now, contents, calls, steps := 0, map[], map[], 0;
      events := [];
    }

    /** Everyone else: any number of clock ticks, sweeps, and steps of other calls. */
    method Others(mine: nat)
      requires Valid()
      modifies this, lockRepo
      ensures Valid() && old(events) <= events
      ensures mine in calls <==> mine in old(calls)
      ensures mine in calls ==> calls[mine] == old(calls[mine])
    {
      var schedule: seq<Event> := *;
      for i := 0 to |schedule|
        invariant Valid() && old(events) <= events
        invariant mine in calls <==> mine in old(calls)
        invariant mine in calls ==> calls[mine] == old(calls[mine])
      {
        var e := schedule[i];
        if !((e.Begin? || e.Advance?) && e.c == mine) {
          NotMine(maxLockLifetime, View(), e, mine);
          var next := Step(maxLockLifetime, View(), e);
          Enter(next, e);
        }
      }
    }

    method Enter(next: State, ghost e: Event)
      requires Valid() && next == Step(maxLockLifetime, View(), e)
      modifies this, lockRepo
      ensures Valid() && View() == next && events == old(events) + [e]
    {
      now, contents, calls, steps := next.now, next.contents, next.calls, next.steps;
      lockRepo.rows := next.rows;
      ExecAppend(maxLockLifetime, events, e);
      events := events + [e];
    }

    // Notes in the run that the step just taken from `was` is event e.
    method Record(was: State, e: Event)
      requires was == Exec(maxLockLifetime, events)
      requires var next := Step(maxLockLifetime, was, e);
               && next.now == was.now
               && View() == was.(rows := next.rows, contents := next.contents)
      modifies this`calls, this`steps, this`events
      ensures Valid() && View() == Step(maxLockLifetime, was, e) && events == old(events) + [e]
    {
      var next := Step(maxLockLifetime, was, e);
      calls, steps := next.calls, next.steps;
      ExecAppend(maxLockLifetime, events, e);
      events := events + [e];
      assert View() == next;
    }

    method Start(c: nat, fileID: string, op: Op)
      requires Valid() && c !in calls
      modifies this, lockRepo
      ensures Valid() && old(events) <= events
      ensures c in calls && calls[c] == Call(fileID, op, FirstPc(op), old(steps), old(steps), None, old(now))
    {
      var was := View();
      Record(was, Begin(c, fileID, op));
      Others(c);
    }

    method FindLock(c: nat) returns (existing: Option<Row>, failed: bool)
      requires Valid() && c in calls && (calls[c].pc.Reading? || calls[c].pc.Refetching?)
      modifies this, lockRepo
      ensures Valid() && old(events) <= events
      ensures c in calls && calls[c].file == old(calls[c].file) && calls[c].op == old(calls[c].op)
      ensures calls[c].begun == old(calls[c].begun)
      ensures failed ==> calls[c].pc == Finished(Failed)
      ensures !failed ==> calls[c].snap == existing
      ensures !failed && old(calls[c].pc.Reading?) ==> calls[c].pc == AfterRead(calls[c].op, existing)
      ensures !failed && old(calls[c].pc.Refetching?) ==> calls[c].pc == Finished(Conflict(IdOf(existing)))
    {
      var link: Link := *;
      var was := View();
      existing, failed := lockRepo.FindByFileID(now, calls[c].file, link);
      Record(was, Advance(c, link));
      Others(c);
    }

    method TimeNow(c: nat) returns (t: int)
      requires Valid() && c in calls && calls[c].pc.Clocking?
      modifies this, lockRepo
      ensures Valid() && old(events) <= events
      ensures c in calls
      ensures var was := old(calls[c]);
              calls[c] == was.(pc := AfterClock(was.op, was.snap, t, maxLockLifetime), sample := t)
    {
      t := now;
      var was := View();
      Record(was, Advance(c, Up));
      Others(c);
    }

    // Runs a conditional write on the repository.
    method Commit(c: nat, stmt: Stmt) returns (res: RepoResult)
      requires Valid() && c in calls && calls[c].pc == Committing(stmt)
      modifies this, lockRepo
      ensures Valid() && old(events) <= events
      ensures c in calls
      ensures calls[c] == old(calls[c]).(pc := AfterCommit(stmt, res == Done, if res == Broken then DownAfter else Up))
    {
      var link: Link := *;
      var was := View();
      var fileID := calls[c].file;
      match stmt {
      case Insert(id, expires, created) => res := lockRepo.Create(now, fileID, id, expires, created, link);
      case Extend(id, expires) => res := lockRepo.RefreshExpiry(now, fileID, id, expires, link);
      case Swap(id, newID, expires) => res := lockRepo.UpdateLockID(now, fileID, id, newID, expires, link);
      case Delete(id) => res := lockRepo.DeleteByFileID(now, fileID, id, link);
      case Take(id, newID, created, expires) =>
        res := lockRepo.Takeover(now, fileID, id, newID, created, expires, link);
      }
      assert lockRepo.rows == Step(maxLockLifetime, was, Advance(c, link)).rows;
      Record(was, Advance(c, link));
      Others(c);
    }

    function WrapStaleLock(res: RepoResult): Outcome {
      match res
      case Done => Granted
      case Stale => Conflict("")
      case Broken => Failed
    }

    method Lock(c: nat, fileID: string, lockID: string) returns (outcome: Outcome)
      requires Valid() && c !in calls
      modifies this, lockRepo
      ensures Completed(old(events), c, fileID, Op.Lock(lockID), outcome)
    {
      hide Step;
      Start(c, fileID, Op.Lock(lockID));
      if lockID == "" {
        return BadRequest;
      }
      var existing, failed := FindLock(c);
      if failed {
        return Failed;
      }
      var t := TimeNow(c);
      if existing.Some? {
        if existing.value.lockId == lockID {
          var refreshed := Commit(c, Extend(lockID, t + LOCK_DURATION));
          return WrapStaleLock(refreshed);
        }
        if maxLockLifetime > 0 && t - existing.value.createdAt > maxLockLifetime {
          var taken := Commit(c, Take(existing.value.lockId, lockID, t, t + LOCK_DURATION));
          if taken == Stale {
            var latest, lost := FindLock(c);
            if lost {
              return Failed;
            }
            if latest == None {
              return Conflict("");
            }
            return Conflict(latest.value.lockId);
          }
          return WrapStaleLock(taken);
        }
        return Conflict(existing.value.lockId);
      }
      var created := Commit(c, Insert(lockID, t + LOCK_DURATION, t));
      return if created == Done then Granted else if created == Stale then Conflict("") else Failed;
    }

    method Unlock(c: nat, fileID: string, lockID: string) returns (outcome: Outcome)
      requires Valid() && c !in calls
      modifies this, lockRepo
      ensures Completed(old(events), c, fileID, Op.Unlock(lockID), outcome)
    {
      Start(c, fileID, Op.Unlock(lockID));
      var existing, failed := FindLock(c);
      if failed {
        return Failed;
      }
      if existing == None {
        return Conflict("");
      }
      if existing.value.lockId != lockID {
        return Conflict(existing.value.lockId);
      }
      var deleted := Commit(c, Delete(lockID));
      return WrapStaleLock(deleted);
    }

    method RefreshLock(c: nat, fileID: string, lockID: string) returns (outcome: Outcome)
      requires Valid() && c !in calls
      modifies this, lockRepo
      ensures Completed(old(events), c, fileID, Refresh(lockID), outcome)
    {
      Start(c, fileID, Refresh(lockID));
      var existing, failed := FindLock(c);
      if failed {
        return Failed;
      }
      if existing == None {
        return Conflict("");
      }
      if existing.value.lockId != lockID {
        return Conflict(existing.value.lockId);
      }
      var t := TimeNow(c);
      var refreshed := Commit(c, Extend(lockID, t + LOCK_DURATION));
      return WrapStaleLock(refreshed);
    }

    method UnlockAndRelock(c: nat, fileID: string, newLockID: string, oldLockID: string) returns (outcome: Outcome)
      requires Valid() && c !in calls
      modifies this, lockRepo
      ensures Completed(old(events), c, fileID, Relock(newLockID, oldLockID), outcome)
    {
      Start(c, fileID, Relock(newLockID, oldLockID));
      if newLockID == "" {
        return BadRequest;
      }
      if oldLockID == "" {
        return BadRequest;
      }
      var existing, failed := FindLock(c);
      if failed {
        return Failed;
      }
      if existing == None {
        return Conflict("");
      }
      if existing.value.lockId != oldLockID {
        return Conflict(existing.value.lockId);
      }
      var t := TimeNow(c);
      var swapped := Commit(c, Swap(oldLockID, newLockID, t + LOCK_DURATION));
      return WrapStaleLock(swapped);
    }

    method HasActiveLock(c: nat, fileID: string) returns (outcome: Outcome)
      requires Valid() && c !in calls
      modifies this, lockRepo
      ensures Completed(old(events), c, fileID, Query, outcome)
    {
      Start(c, fileID, Query);
      var existing, failed := FindLock(c);
      if failed {
        return Failed;
      }
      return Status(existing);
    }

    method PutFile(c: nat, token: Tokens.AccessToken, lockID: string) returns (outcome: Outcome)
      requires Valid() && c !in calls
      modifies this, lockRepo
      ensures Completed(old(events), c, token.fileId, Put(token.permissions, lockID), outcome)
    {
      var mayWrite := HasPermission(token.permissions, "write");
      Start(c, token.fileId, Put(token.permissions, lockID));
      if !mayWrite {
        return Forbidden;
      }
      var existing, failed := FindLock(c);
      if failed {
        return Failed;
      }
      if existing.Some? {
        if lockID == "" || existing.value.lockId != lockID {
          return Conflict(existing.value.lockId);
        }
      }
      var link: Link := *;
      var was := View();
      if link != DownBefore {
        contents := contents[token.fileId := c];
      }
      Record(was, Advance(c, link));
      return if link == Up then Granted else Failed;
    }
  }
}
