/** What the lock protocol guarantees on every run: to the holder of a lock, to the
    callers racing for it, and to the next session once a holder has gone silent. */
module LockTheorems {
  import opened Wrappers
  import opened LockTable
  import opened LockProtocol
  import opened LockInvariant
  import opened Permissions

  // Event i runs this statement of call c on the file, whether or not it matches a row.
  ghost predicate Commits(maxLifetime: int, evs: seq<Event>, i: nat, c: nat, file: string, stmt: Stmt)
    requires i < |evs|
  {
    var s := At(maxLifetime, evs, i);
    && evs[i].Advance? && evs[i].c == c && evs[i].link != DownBefore
    && c in s.calls && s.calls[c].file == file && s.calls[c].pc == Committing(stmt)
  }

  // Event i runs this statement of call c on the file, and it matches a row.
  ghost predicate Takes(maxLifetime: int, evs: seq<Event>, i: nat, c: nat, file: string, stmt: Stmt)
    requires i < |evs|
  {
    var s := At(maxLifetime, evs, i);
    Commits(maxLifetime, evs, i, c, file, stmt) && Matches(stmt, s.rows, s.now, file)
  }

  // Event i puts `id` on the file's row in place of whatever was there.
  ghost predicate Installs(maxLifetime: int, evs: seq<Event>, i: nat, file: string, id: string)
    requires i < |evs|
  {
    var s := At(maxLifetime, evs, i);
    && evs[i].Advance? && evs[i].link != DownBefore && evs[i].c in s.calls
    && var call := s.calls[evs[i].c];
    && call.file == file && call.pc.Committing? && Matches(call.pc.stmt, s.rows, s.now, file)
    && (match call.pc.stmt
        case Insert(newId, _, _) => newId == id && call.op == Lock(id)
        case Swap(oldId, newId, _) => newId == id && call.op == Relock(id, oldId)
        case Take(_, newId, _, _) => newId == id && call.op == Lock(id)
        case _ => false)
  }

  // Why `id` stops being the lock in force at event i: it expires, or a call's statement does it.
  ghost predicate Displaced(maxLifetime: int, evs: seq<Event>, i: nat, file: string, id: string)
    requires i < |evs|
  {
    var s := At(maxLifetime, evs, i);
    match evs[i]
    case Tick(delta) => file in s.rows && s.rows[file].expiresAt <= s.now + delta
    case Advance(c, link) =>
      && c in s.calls && s.calls[c].pc.Committing?
      && Commits(maxLifetime, evs, i, c, file, s.calls[c].pc.stmt)
      && DisplacedBy(maxLifetime, evs, i, s.calls[c], s.now, id)
    case _ => false
  }

  ghost predicate DisplacedBy(maxLifetime: int, evs: seq<Event>, i: nat, call: Call, now: int, id: string)
    requires i < |evs| && call.pc.Committing?
  {
    match call.pc.stmt
    case Delete(prev) => prev == id && call.op == Unlock(id)
    // A relock to the same ID displaces it only as a refresh does.
    case Swap(prev, newId, _) =>
      prev == id && call.op == Relock(newId, id) && (newId != id || now - call.sample >= LOCK_DURATION)
    // The holder's own refresh, committed so late that the expiry it writes has passed.
    case Extend(prev, _) =>
      prev == id && (call.op == Lock(id) || call.op == Refresh(id)) && now - call.sample >= LOCK_DURATION
    // The taker read this very ID, and found it older than the maximum lifetime.
    case Take(prev, newId, _, _) =>
      && prev == id && call.op == Lock(newId) && newId != id && maxLifetime > 0
      && call.readAt < i && HolderAt(maxLifetime, evs, call.readAt, call.file) == Some(id)
      && var past := At(maxLifetime, evs, call.readAt);
      && call.file in past.rows && call.sample - past.rows[call.file].createdAt > maxLifetime
    // The creator read the file as unlocked, and the ID was installed after that read.
    case Insert(newId, _, _) =>
      && call.op == Lock(newId) && (newId != id || now - call.sample >= LOCK_DURATION)
      && call.readAt < i && HolderAt(maxLifetime, evs, call.readAt, call.file) == None
      && exists k :: call.readAt <= k < i && Installs(maxLifetime, evs, k, call.file, id)
  }

  /** The holder's guarantee: an active lock ID is displaced by its expiry, by an unlock or
      relock naming it, by a takeover that read it past the maximum lifetime, by a creation
      that read the file before the ID was installed, or by a refresh of its own holder
      that was delayed for a whole lock duration; and by each of these, and nothing else. */
  lemma HolderGuarantee(maxLifetime: int, evs: seq<Event>, i: nat, file: string, id: string)
    requires i < |evs|
    requires HolderAt(maxLifetime, evs, i, file) == Some(id)
    ensures HolderAt(maxLifetime, evs, i + 1, file) != Some(id) <==> Displaced(maxLifetime, evs, i, file, id)
  {
    if HolderAt(maxLifetime, evs, i + 1, file) != Some(id) {
      LossIsDisplacement(maxLifetime, evs, i, file, id);
    }
    if Displaced(maxLifetime, evs, i, file, id) {
      DisplacementIsLoss(maxLifetime, evs, i, file, id);
    }
  }

  lemma LossIsDisplacement(maxLifetime: int, evs: seq<Event>, i: nat, file: string, id: string)
    requires i < |evs|
    requires HolderAt(maxLifetime, evs, i, file) == Some(id)
    requires HolderAt(maxLifetime, evs, i + 1, file) != Some(id)
    ensures Displaced(maxLifetime, evs, i, file, id)
  {
    var s := At(maxLifetime, evs, i);
    NextState(maxLifetime, evs, i);
    if evs[i].Advance? {
      assert evs[i].c in s.calls;
      var call := s.calls[evs[i].c];
      assert call.file == file && call.pc.Committing?;
      CommitFacts(maxLifetime, evs, i, evs[i].c);
      if call.pc.stmt.Insert? {
        Installed(maxLifetime, evs, call.readAt, i, file, id);
      }
    }
  }

  lemma DisplacementIsLoss(maxLifetime: int, evs: seq<Event>, i: nat, file: string, id: string)
    requires i < |evs|
    requires HolderAt(maxLifetime, evs, i, file) == Some(id) && Displaced(maxLifetime, evs, i, file, id)
    ensures HolderAt(maxLifetime, evs, i + 1, file) != Some(id)
  {
    NextState(maxLifetime, evs, i);
    if evs[i].Advance? {
      CommitFacts(maxLifetime, evs, i, evs[i].c);
    }
  }

  // What reachability says of a call about to commit.
  lemma CommitFacts(maxLifetime: int, evs: seq<Event>, i: nat, c: nat)
    requires i <= |evs| && c in At(maxLifetime, evs, i).calls
    requires At(maxLifetime, evs, i).calls[c].pc.Committing?
    ensures var call := At(maxLifetime, evs, i).calls[c];
            && PointOk(maxLifetime, call) && call.readAt < i && call.sample <= At(maxLifetime, evs, i).now
            && var past := At(maxLifetime, evs, call.readAt);
               call.snap == Find(past.rows, past.now, call.file)
  {
    Reachable(maxLifetime, evs[..i]);
    var call := At(maxLifetime, evs, i).calls[c];
    assert CallOk(maxLifetime, evs[..i], c, call);
    SamePast(maxLifetime, evs, i, call.readAt);
  }

  // An event after which the row carries an ID that it did not carry before, or that was
  // not in force before and is now, installs it.
  lemma InstalledNow(maxLifetime: int, evs: seq<Event>, i: nat, file: string, id: string)
    requires i < |evs|
    requires || (HolderAt(maxLifetime, evs, i, file) != Some(id) && HolderAt(maxLifetime, evs, i + 1, file) == Some(id))
             || (!CarriesAt(maxLifetime, evs, i, file, id) && CarriesAt(maxLifetime, evs, i + 1, file, id))
    ensures Installs(maxLifetime, evs, i, file, id)
  {
    NextState(maxLifetime, evs, i);
    var s, e := At(maxLifetime, evs, i), evs[i];
    assert e.Advance? && e.c in s.calls;
    CommitFacts(maxLifetime, evs, i, e.c);
  }

  // Between an instant without the ID in force and one with it, some event installs it.
  lemma Installed(maxLifetime: int, evs: seq<Event>, a: nat, b: nat, file: string, id: string)
    requires a <= b <= |evs|
    requires HolderAt(maxLifetime, evs, a, file) != Some(id)
    requires HolderAt(maxLifetime, evs, b, file) == Some(id)
    ensures exists k :: a <= k < b && Installs(maxLifetime, evs, k, file, id)
  {
    hide At, Step, Installs, HolderAt;
    if HolderAt(maxLifetime, evs, b - 1, file) == Some(id) {
      Installed(maxLifetime, evs, a, b - 1, file, id);
    } else {
      InstalledNow(maxLifetime, evs, b - 1, file, id);
    }
  }

  predicate CarriesAt(maxLifetime: int, evs: seq<Event>, i: nat, file: string, id: string)
    requires i <= |evs|
  {
    Carries(At(maxLifetime, evs, i).rows, file, id)
  }

  // The call is told it succeeded at event i.
  ghost predicate GrantedAt(maxLifetime: int, evs: seq<Event>, i: nat, c: nat, file: string, stmt: Stmt)
    requires i < |evs|
  {
    && Commits(maxLifetime, evs, i, c, file, stmt)
    && var t := At(maxLifetime, evs, i + 1);
    && c in t.calls && t.calls[c].pc == Finished(Granted)
  }

  /** A successful refresh or relock, and a Lock that refreshes its own ID, commits while the
      row is active under the ID it names; a successful unlock or takeover, while the row still carries the ID the
      call read. */
  lemma GrantsAreTimely(maxLifetime: int, evs: seq<Event>, i: nat, c: nat, file: string, stmt: Stmt)
    requires i < |evs| && GrantedAt(maxLifetime, evs, i, c, file, stmt)
    ensures var op := At(maxLifetime, evs, i).calls[c].op;
            && (op.Refresh? ==> HolderAt(maxLifetime, evs, i, file) == Some(op.lockId))
            && (op.Relock? ==> HolderAt(maxLifetime, evs, i, file) == Some(op.oldId))
            && (op.Relock? ==> CarriesAt(maxLifetime, evs, i + 1, file, op.newId))
            && (op.Unlock? ==> CarriesAt(maxLifetime, evs, i, file, op.lockId))
            && (op.Unlock? ==> file !in At(maxLifetime, evs, i + 1).rows)
            && (op.Lock? ==> CarriesAt(maxLifetime, evs, i + 1, file, op.lockId))
            && (op.Lock? && stmt.Extend? ==> HolderAt(maxLifetime, evs, i, file) == Some(op.lockId))
            && (op.Lock? && stmt.Take? ==>
                  CarriesAt(maxLifetime, evs, i, file, IdOf(At(maxLifetime, evs, i).calls[c].snap)))
  {
    NextState(maxLifetime, evs, i);
    CommitFacts(maxLifetime, evs, i, c);
  }

  // A takeover, an unlock, or a relock to another ID uses the lock ID up.
  predicate Consumes(stmt: Stmt, id: string) {
    match stmt
    case Delete(prev) => prev == id
    case Swap(prev, newId, _) => prev == id && newId != id
    case Take(prev, _, _, _) => prev == id
    case _ => false
  }

  /** Of all the calls that use up one lock ID, at most one succeeds, unless the ID is
      installed again in between. */
  lemma AtMostOneConsumes(maxLifetime: int, evs: seq<Event>, i: nat, j: nat, c: nat, d: nat,
                          file: string, id: string, first: Stmt, second: Stmt)
    requires i < j < |evs|
    requires GrantedAt(maxLifetime, evs, i, c, file, first) && Consumes(first, id)
    requires GrantedAt(maxLifetime, evs, j, d, file, second) && Consumes(second, id)
    ensures exists k :: i < k < j && Installs(maxLifetime, evs, k, file, id)
  {
    NextState(maxLifetime, evs, i);
    NextState(maxLifetime, evs, j);
    CommitFacts(maxLifetime, evs, i, c);
    assert !CarriesAt(maxLifetime, evs, i + 1, file, id);
    assert CarriesAt(maxLifetime, evs, j, file, id);
    Reinstalled(maxLifetime, evs, i + 1, j, file, id);
  }

  lemma Reinstalled(maxLifetime: int, evs: seq<Event>, a: nat, b: nat, file: string, id: string)
    requires a <= b <= |evs|
    requires !CarriesAt(maxLifetime, evs, a, file, id) && CarriesAt(maxLifetime, evs, b, file, id)
    ensures exists k :: a <= k < b && Installs(maxLifetime, evs, k, file, id)
  {
    hide At, Step, Installs, CarriesAt;
    if CarriesAt(maxLifetime, evs, b - 1, file, id) {
      Reinstalled(maxLifetime, evs, a, b - 1, file, id);
    } else {
      InstalledNow(maxLifetime, evs, b - 1, file, id);
    }
  }

  /** No stored lock ID is empty, and a nonempty ID quoted in a conflict was the lock in
      force at an instant at which the call was in flight, also after a lost takeover. */
  lemma ConflictsQuoteRealLocks(maxLifetime: int, evs: seq<Event>, c: nat)
    requires c in Exec(maxLifetime, evs).calls
    ensures forall f :: f in Exec(maxLifetime, evs).rows ==> Exec(maxLifetime, evs).rows[f].lockId != ""
    ensures var call := Exec(maxLifetime, evs).calls[c];
            call.pc.Finished? && call.pc.outcome.Conflict? && call.pc.outcome.lockId != "" ==>
              && call.begun < call.readAt < |evs|
              && HolderAt(maxLifetime, evs, call.readAt, call.file) == Some(call.pc.outcome.lockId)
              && c in At(maxLifetime, evs, call.readAt).calls
              && !At(maxLifetime, evs, call.readAt).calls[c].pc.Finished?
              && At(maxLifetime, evs, call.readAt).calls[c].begun == call.begun
  {
    Reachable(maxLifetime, evs);
    var call := Exec(maxLifetime, evs).calls[c];
    assert CallOk(maxLifetime, evs, c, call);
  }

  /** An empty conflict means that the call's last read saw no active lock, or that its
      conditional write had just lost the race. */
  lemma EmptyConflicts(maxLifetime: int, evs: seq<Event>, i: nat, c: nat)
    requires i < |evs| && evs[i].Advance? && evs[i].c == c
    requires c in At(maxLifetime, evs, i).calls && !At(maxLifetime, evs, i).calls[c].pc.Finished?
    requires c in At(maxLifetime, evs, i + 1).calls
    requires At(maxLifetime, evs, i + 1).calls[c].pc == Finished(Conflict(""))
    ensures var s := At(maxLifetime, evs, i);
            var call := s.calls[c];
            || HolderAt(maxLifetime, evs, i, call.file) == None
            || (call.pc.Committing? && !Matches(call.pc.stmt, s.rows, s.now, call.file))
  {
    NextState(maxLifetime, evs, i);
    Reachable(maxLifetime, evs[..i]);
    var s := At(maxLifetime, evs, i);
    assert CallOk(maxLifetime, evs[..i], c, s.calls[c]);
    if s.calls[c].pc.Clocking? {
      RowIdNotEmpty(maxLifetime, evs, i, c);
    }
  }

  lemma RowIdNotEmpty(maxLifetime: int, evs: seq<Event>, i: nat, c: nat)
    requires i <= |evs| && c in At(maxLifetime, evs, i).calls
    requires At(maxLifetime, evs, i).calls[c].pc.Clocking?
    ensures var snap := At(maxLifetime, evs, i).calls[c].snap; snap.Some? ==> snap.value.lockId != ""
  {
    Reachable(maxLifetime, evs[..i]);
    var call := At(maxLifetime, evs, i).calls[c];
    assert CallOk(maxLifetime, evs[..i], c, call);
    SamePast(maxLifetime, evs, i, call.readAt);
    Reachable(maxLifetime, evs[..call.readAt]);
  }

  /** No expiry lies more than a lock duration ahead, so a file on which no statement
      takes effect for that long is unlocked, and the next Lock of any nonempty ID gets it. */
  lemma SilentHolderLosesTheFile(maxLifetime: int, evs: seq<Event>, i: nat, j: nat, file: string, c: nat, id: string)
    requires i <= j <= |evs|
    requires forall k, d, stmt | i <= k < j :: !Takes(maxLifetime, evs, k, d, file, stmt)
    requires At(maxLifetime, evs, j).now >= At(maxLifetime, evs, i).now + LOCK_DURATION
    requires id != "" && c !in At(maxLifetime, evs, j).calls
    ensures forall f :: f in At(maxLifetime, evs, i).rows ==>
              At(maxLifetime, evs, i).rows[f].expiresAt <= At(maxLifetime, evs, i).now + LOCK_DURATION
    ensures HolderAt(maxLifetime, evs, j, file) == None
    ensures var s := At(maxLifetime, evs, j);
            var t := Solo(maxLifetime, s, c, file, Lock(id));
            && t.calls[c].pc == Finished(Granted)
            && Holder(t.rows, t.now, file) == Some(id)
            && t.rows[file].expiresAt == s.now + LOCK_DURATION
  {
    Reachable(maxLifetime, evs[..i]);
    RowOnlySwept(maxLifetime, evs, i, j, file);
  }

  lemma RowOnlySwept(maxLifetime: int, evs: seq<Event>, i: nat, j: nat, file: string)
    requires i <= j <= |evs|
    requires forall k, d, stmt | i <= k < j :: !Takes(maxLifetime, evs, k, d, file, stmt)
    ensures var s, t := At(maxLifetime, evs, i), At(maxLifetime, evs, j);
            file in t.rows ==> file in s.rows && s.rows[file] == t.rows[file]
  {
    if i < j {
      RowOnlySwept(maxLifetime, evs, i, j - 1, file);
      NextState(maxLifetime, evs, j - 1);
      var s, e := At(maxLifetime, evs, j - 1), evs[j - 1];
      if e.Advance? && e.c in s.calls && s.calls[e.c].pc.Committing? {
        assert !Takes(maxLifetime, evs, j - 1, e.c, file, s.calls[e.c].pc.stmt);
      }
    }
  }

  // Event k renews the lock: a refresh of `id`, a second Lock of it, or a relock to itself.
  ghost predicate Renews(maxLifetime: int, evs: seq<Event>, k: nat, file: string, id: string)
    requires k < |evs|
  {
    var s := At(maxLifetime, evs, k);
    && evs[k].Advance? && evs[k].link != DownBefore && evs[k].c in s.calls
    && var call := s.calls[evs[k].c];
    && call.file == file && call.pc.Committing?
    && Renewal(call.pc.stmt, id)
  }

  predicate Renewal(stmt: Stmt, id: string) {
    match stmt
    case Insert(newId, _, _) => newId == id
    case Extend(prev, _) => prev == id
    case Swap(prev, newId, _) => prev == id && newId == id
    case _ => false
  }

  // Event k would end or replace the lock, however long it still had.
  ghost predicate Hostile(maxLifetime: int, evs: seq<Event>, k: nat, file: string, id: string)
    requires k < |evs|
  {
    exists c, stmt :: Commits(maxLifetime, evs, k, c, file, stmt) && EndsLock(stmt, id)
  }

  predicate EndsLock(stmt: Stmt, id: string) {
    match stmt
    case Insert(newId, _, _) => newId != id
    case Extend(_, _) => false
    case Swap(prev, newId, _) => prev == id && newId != id
    case Delete(prev) => prev == id
    case Take(prev, _, _, _) => prev == id
  }

  // When the lock held at i is due to expire, going by the renewals committed up to k:
  // a lock duration after the clock sample of the last one to commit.
  ghost function Promise(maxLifetime: int, evs: seq<Event>, i: nat, k: nat, file: string, id: string): int
    requires i <= k <= |evs|
    requires HolderAt(maxLifetime, evs, i, file) == Some(id)
  {
    if k == i then At(maxLifetime, evs, i).rows[file].expiresAt
    else if Renews(maxLifetime, evs, k - 1, file, id)
    then At(maxLifetime, evs, k - 1).calls[evs[k - 1].c].sample + LOCK_DURATION
    else Promise(maxLifetime, evs, i, k - 1, file, id)
  }

  ghost predicate InTime(maxLifetime: int, evs: seq<Event>, i: nat, k: nat, file: string, id: string)
    requires i <= k <= |evs|
    requires HolderAt(maxLifetime, evs, i, file) == Some(id)
  {
    At(maxLifetime, evs, k).now < Promise(maxLifetime, evs, i, k, file, id)
  }

  ghost predicate HoldsAt(maxLifetime: int, evs: seq<Event>, k: nat, file: string, id: string)
    requires k <= |evs|
  {
    HolderAt(maxLifetime, evs, k, file) == Some(id)
  }

  /** A holder whom nobody unlocks, takes over or overwrites keeps the lock for any
      number of refreshes, exactly as long as each instant comes less than a lock
      duration after the clock sample of the refresh last committed. */
  lemma {:induction false} RefreshingKeepsTheLock(maxLifetime: int, evs: seq<Event>, i: nat, j: nat,
                                                  file: string, id: string)
    requires i <= j <= |evs|
    requires HoldsAt(maxLifetime, evs, i, file, id)
    requires forall k :: i <= k < j ==> !Hostile(maxLifetime, evs, k, file, id)
    ensures (forall k :: i <= k <= j ==> InTime(maxLifetime, evs, i, k, file, id))
       <==> (forall k :: i <= k <= j ==> HoldsAt(maxLifetime, evs, k, file, id))
    ensures (forall k :: i <= k <= j ==> HoldsAt(maxLifetime, evs, k, file, id)) ==>
              && HoldsAt(maxLifetime, evs, j, file, id)
              && Promise(maxLifetime, evs, i, j, file, id) == At(maxLifetime, evs, j).rows[file].expiresAt
  {
    hide At, Step, Hostile;
    if i < j {
      RefreshingKeepsTheLock(maxLifetime, evs, i, j - 1, file, id);
      if forall k :: i <= k <= j - 1 ==> HoldsAt(maxLifetime, evs, k, file, id) {
        assert HoldsAt(maxLifetime, evs, j - 1, file, id);
        OneStepKeeps(maxLifetime, evs, i, j - 1, file, id);
        assert InTime(maxLifetime, evs, i, j, file, id) <==> HoldsAt(maxLifetime, evs, j, file, id);
      }
    } else {
      assert InTime(maxLifetime, evs, i, i, file, id);
    }
  }

  // A renewal writes the expiry that follows from the call's own clock sample.
  lemma RenewalExpires(maxLifetime: int, call: Call)
    requires PointOk(maxLifetime, call) && call.pc.Committing? && !call.pc.stmt.Delete?
    ensures call.pc.stmt.expiresAt == call.sample + LOCK_DURATION
  {
  }

  lemma ApplyKeepsLock(stmt: Stmt, rows: Table, now: int, file: string, id: string)
    requires Holder(rows, now, file) == Some(id) && !EndsLock(stmt, id)
    ensures var after := Apply(stmt, rows, now, file);
            && file in after && after[file].lockId == id
            && (Renewal(stmt, id) ==> !stmt.Delete? && after[file].expiresAt == stmt.expiresAt)
            && (!Renewal(stmt, id) ==> after[file].expiresAt == rows[file].expiresAt)
  {
  }

  lemma OneStepKeeps(maxLifetime: int, evs: seq<Event>, i: nat, k: nat, file: string, id: string)
    requires i <= k < |evs|
    requires HolderAt(maxLifetime, evs, i, file) == Some(id) && HolderAt(maxLifetime, evs, k, file) == Some(id)
    requires !Hostile(maxLifetime, evs, k, file, id)
    requires At(maxLifetime, evs, k).rows[file].expiresAt == Promise(maxLifetime, evs, i, k, file, id)
    ensures var t := At(maxLifetime, evs, k + 1);
            var promise := Promise(maxLifetime, evs, i, k + 1, file, id);
            && (HolderAt(maxLifetime, evs, k + 1, file) == Some(id) <==> t.now < promise)
            && (t.now < promise ==> file in t.rows && t.rows[file].expiresAt == promise)
  {
    hide PointOk, AfterRead, AfterClock, FirstPc, EndsLock, Renewal;
    NextState(maxLifetime, evs, k);
    var s, e := At(maxLifetime, evs, k), evs[k];
    if e.Advance? && e.c in s.calls && s.calls[e.c].pc.Committing? {
      CommitFacts(maxLifetime, evs, k, e.c);
      var call := s.calls[e.c];
      if e.link != DownBefore && call.file == file {
        assert Commits(maxLifetime, evs, k, e.c, file, call.pc.stmt);
        assert !EndsLock(call.pc.stmt, id);
        ApplyKeepsLock(call.pc.stmt, s.rows, s.now, file, id);
        if !call.pc.stmt.Delete? {
          RenewalExpires(maxLifetime, call);
        }
      }
    }
  }

  /** PutFile writes only for a token granting write, and only if its own read of the
      table saw the file unlocked or locked under the nonempty ID it was sent. */
  lemma WritesAreAuthorized(maxLifetime: int, evs: seq<Event>, i: nat)
    requires i < |evs|
    requires At(maxLifetime, evs, i + 1).contents != At(maxLifetime, evs, i).contents
    ensures evs[i].Advance? && evs[i].c in At(maxLifetime, evs, i).calls
    ensures var c := evs[i].c;
            var call := At(maxLifetime, evs, i).calls[c];
            && At(maxLifetime, evs, i + 1).contents == At(maxLifetime, evs, i).contents[call.file := c]
            && call.op.Put? && "write" in Split(call.op.permissions)
            && call.readAt < i
            && var seen := HolderAt(maxLifetime, evs, call.readAt, call.file);
               (seen == None || (seen == Some(call.op.lockId) && call.op.lockId != ""))
  {
    NextState(maxLifetime, evs, i);
    var c := evs[i].c;
    Reachable(maxLifetime, evs[..i]);
    var call := At(maxLifetime, evs, i).calls[c];
    assert CallOk(maxLifetime, evs[..i], c, call);
    SamePast(maxLifetime, evs, i, call.readAt);
  }

  /** A save that lands while the file is locked under another ID than the one it sent lands
      after that ID has been installed, and was let through because it read the table before. */
  lemma ForeignLockCameAfterTheRead(maxLifetime: int, evs: seq<Event>, i: nat, id: string)
    requires i < |evs|
    requires At(maxLifetime, evs, i + 1).contents != At(maxLifetime, evs, i).contents
    ensures evs[i].Advance? && evs[i].c in At(maxLifetime, evs, i).calls
    ensures var call := At(maxLifetime, evs, i).calls[evs[i].c];
            && call.op.Put? && call.readAt < i
            && (HolderAt(maxLifetime, evs, i, call.file) == Some(id) && (call.op.lockId != id || id == "") ==>
                  exists k :: call.readAt <= k < i && Installs(maxLifetime, evs, k, call.file, id))
  {
    hide At, HolderAt, Installs;
    WritesAreAuthorized(maxLifetime, evs, i);
    var call := At(maxLifetime, evs, i).calls[evs[i].c];
    if HolderAt(maxLifetime, evs, i, call.file) == Some(id) && (call.op.lockId != id || id == "") {
      Installed(maxLifetime, evs, call.readAt, i, call.file, id);
    }
  }

  /** The creation case of the holder's guarantee does happen: two Locks of different IDs
      that both read the file as unlocked both succeed, and the second silently replaces
      the first, which is still active and not old. */
  lemma RacingLocksBothGranted(maxLifetime: int)
    ensures exists evs: seq<Event> ::
              && |evs| == 8
              && Exec(maxLifetime, evs).calls.Keys == {0, 1}
              && Exec(maxLifetime, evs).calls[0].pc == Finished(Granted)
              && Exec(maxLifetime, evs).calls[1].pc == Finished(Granted)
              && HolderAt(maxLifetime, evs, 7, "f") == Some("a")
              && HolderAt(maxLifetime, evs, 8, "f") == Some("b")
  {
    hide Exec;
    assert Exec(maxLifetime, []) == Init() by { EmptyRun(maxLifetime); }
    var evs1: seq<Event> := [] + [Begin(0, "f", Lock("a"))];
    var evs2 := evs1 + [Begin(1, "f", Lock("b"))];
    var evs4 := evs2 + [Advance(0, Up)] + [Advance(1, Up)];
    var evs6 := evs4 + [Advance(0, Up)] + [Advance(1, Up)];
    var evs7 := evs6 + [Advance(0, Up)];
    var evs8 := evs7 + [Advance(1, Up)];
    ExecAppend(maxLifetime, [], Begin(0, "f", Lock("a")));
    ExecAppend(maxLifetime, evs1, Begin(1, "f", Lock("b")));
    ExecAppend(maxLifetime, evs2, Advance(0, Up));
    ExecAppend(maxLifetime, evs2 + [Advance(0, Up)], Advance(1, Up));
    assert Exec(maxLifetime, evs4).rows == map[] && Exec(maxLifetime, evs4).now == 0;
    ExecAppend(maxLifetime, evs4, Advance(0, Up));
    ExecAppend(maxLifetime, evs4 + [Advance(0, Up)], Advance(1, Up));
    ExecAppend(maxLifetime, evs6, Advance(0, Up));
    ExecAppend(maxLifetime, evs7, Advance(1, Up));
    assert evs8[..7] == evs7 && evs8[..8] == evs8;
  }
}
