/** Every interleaving of the WOPI lock operations of WOPIService, as a state machine.

    A run is any sequence of events. `Step` is total: an event that cannot happen in a
    state leaves the state alone, so `Exec` gives the state after every schedule of
    calls, clock ticks, sweeps and broken connections. */
module LockProtocol {
  import opened Wrappers
  import opened LockTable
  import opened Permissions

  datatype Op =
    | Lock(lockId: string)
    | Unlock(lockId: string)
    | Refresh(lockId: string)
    | Relock(newId: string, oldId: string)
    | Put(permissions: string, lockId: string)
    | Query

  datatype Outcome =
    | Granted
    | Conflict(lockId: string)      // 409 with this X-WOPI-Lock
    | Forbidden                     // the token does not grant write
    | BadRequest                    // an empty lock ID where one is required
    | Failed                        // the database or file-service reported an error
    | Status(found: Option<Row>)    // HasActiveLock

  datatype Pc =
    | Reading
    | Clocking
    | Committing(stmt: Stmt)
    | Refetching
    | Storing
    | Finished(outcome: Outcome)

  // The last four fields record the history of the call: the lengths of the run when it
  // began and when it last read the table, what that read saw, and the clock it sampled.
  datatype Call = Call(file: string, op: Op, pc: Pc, begun: nat, readAt: nat, snap: Option<Row>, sample: int)

  // `contents` says which call last wrote a file; `steps` is the length of the run.
  datatype State = State(now: int, rows: Table, contents: map<string, nat>, calls: map<nat, Call>, steps: nat)

  datatype Event =
    | Tick(delta: int)
    | Begin(c: nat, file: string, op: Op)
    | Advance(c: nat, link: Link)
    | CleanUp(link: Link)

  function FirstPc(op: Op): Pc {
    match op
    case Lock(id) => if id == "" then Finished(BadRequest) else Reading
    case Relock(newId, oldId) => if newId == "" || oldId == "" then Finished(BadRequest) else Reading
    case Put(permissions, _) => if "write" in Split(permissions) then Reading else Finished(Forbidden)
    case _ => Reading
  }

  function AfterRead(op: Op, snap: Option<Row>): Pc {
    match op
    case Lock(_) => Clocking
    case Unlock(id) => if Held(snap, id) then Committing(Delete(id)) else Finished(Conflict(IdOf(snap)))
    case Refresh(id) => if Held(snap, id) then Clocking else Finished(Conflict(IdOf(snap)))
    case Relock(_, id) => if Held(snap, id) then Clocking else Finished(Conflict(IdOf(snap)))
    case Put(_, id) =>
      if snap.Some? && (id == "" || snap.value.lockId != id) then Finished(Conflict(snap.value.lockId)) else Storing
    case Query => Finished(Status(snap))
  }

  predicate Held(snap: Option<Row>, id: string) {
    snap.Some? && snap.value.lockId == id
  }

  function IdOf(snap: Option<Row>): string {
    if snap.Some? then snap.value.lockId else ""
  }

  // The statement chosen once the clock has been sampled, or the conflict of a Lock
  // whose rival is not old enough to be taken over.
  function AfterClock(op: Op, snap: Option<Row>, now: int, maxLifetime: int): Pc {
    var expires := now + LOCK_DURATION;
    match op
    case Refresh(id) => Committing(Extend(id, expires))
    case Relock(newId, oldId) => Committing(Swap(oldId, newId, expires))
    case Lock(id) =>
      (match snap
       case None => Committing(Insert(id, expires, now))
       case Some(row) =>
         if row.lockId == id then Committing(Extend(id, expires))
         else if maxLifetime > 0 && now - row.createdAt > maxLifetime
         then Committing(Take(row.lockId, id, now, expires))
         else Finished(Conflict(row.lockId)))
    case _ => Finished(Failed)
  }

  // Zero affected rows is a conflict without an ID, except that a lost takeover looks again.
  function AfterCommit(stmt: Stmt, affected: bool, link: Link): Pc {
    if link != Up then Finished(Failed)
    else if affected then Finished(Granted)
    else if stmt.Take? then Refetching
    else Finished(Conflict(""))
  }

  function Init(): State {
    State(0, map[], map[], map[], 0)
  }

  function Step(maxLifetime: int, s: State, e: Event): State {
    var t := s.(steps := s.steps + 1);
    match e
    case Tick(delta) => if delta > 0 then t.(now := s.now + delta) else t
    case Begin(c, file, op) =>
      if c in s.calls then t
      else t.(calls := s.calls[c := Call(file, op, FirstPc(op), s.steps, s.steps, None, s.now)])
    case CleanUp(link) => if link == DownBefore then t else t.(rows := Sweep(s.rows, s.now))
    case Advance(c, link) => if c in s.calls then StepCall(maxLifetime, t, c, s.calls[c], link) else t
  }

  function StepCall(maxLifetime: int, t: State, c: nat, call: Call, link: Link): State
    requires t.steps > 0
  {
    match call.pc
    case Reading =>
      var snap := Find(t.rows, t.now, call.file);
      var pc := if link == Up then AfterRead(call.op, snap) else Finished(Failed);
      t.(calls := t.calls[c := call.(pc := pc, readAt := t.steps - 1, snap := snap)])
    case Clocking =>
      t.(calls := t.calls[c := call.(pc := AfterClock(call.op, call.snap, t.now, maxLifetime), sample := t.now)])
    case Committing(stmt) =>
      var pc := AfterCommit(stmt, Matches(stmt, t.rows, t.now, call.file), link);
      t.(rows := if link == DownBefore then t.rows else Apply(stmt, t.rows, t.now, call.file),
         calls := t.calls[c := call.(pc := pc)])
    case Refetching =>
      var snap := Find(t.rows, t.now, call.file);
      var pc := Finished(if link == Up then Conflict(IdOf(snap)) else Failed);
      t.(calls := t.calls[c := call.(pc := pc, readAt := t.steps - 1, snap := snap)])
    case Storing =>
      t.(contents := if link == DownBefore then t.contents else t.contents[call.file := c],
         calls := t.calls[c := call.(pc := Finished(if link == Up then Granted else Failed))])
    case Finished(_) => t
  }

  function Exec(maxLifetime: int, evs: seq<Event>): (s: State)
    ensures s.steps == |evs|
  {
    if evs == [] then Init() else Step(maxLifetime, Exec(maxLifetime, evs[..|evs| - 1]), evs[|evs| - 1])
  }

  // The state of a run after its first i events.
  function At(maxLifetime: int, evs: seq<Event>, i: nat): (s: State)
    requires i <= |evs|
    ensures s.steps == i
  {
    Exec(maxLifetime, evs[..i])
  }

  // The lock ID in force on a file after the first i events.
  function HolderAt(maxLifetime: int, evs: seq<Event>, i: nat, file: string): Option<string>
    requires i <= |evs|
  {
    var s := At(maxLifetime, evs, i);
    Holder(s.rows, s.now, file)
  }

  lemma NextState(maxLifetime: int, evs: seq<Event>, i: nat)
    requires i < |evs|
    ensures At(maxLifetime, evs, i + 1) == Step(maxLifetime, At(maxLifetime, evs, i), evs[i])
  {
    assert evs[..i + 1][..i] == evs[..i];
  }

  lemma SamePast(maxLifetime: int, evs: seq<Event>, n: nat, i: nat)
    requires i <= n <= |evs|
    ensures At(maxLifetime, evs[..n], i) == At(maxLifetime, evs, i)
  {
    assert evs[..n][..i] == evs[..i];
  }

  lemma EmptyRun(maxLifetime: int)
    ensures Exec(maxLifetime, []) == Init()
  {
  }

  lemma ExecAppend(maxLifetime: int, evs: seq<Event>, e: Event)
    ensures Exec(maxLifetime, evs + [e]) == Step(maxLifetime, Exec(maxLifetime, evs), e)
  {
    assert (evs + [e])[..|evs|] == evs;
  }

  // One call run from start to end with nothing else in between: begin, read, sample
  // the clock, commit. A call that needs fewer steps ignores the rest.
  function Solo(maxLifetime: int, s: State, c: nat, file: string, op: Op): State {
    var s1 := Step(maxLifetime, s, Begin(c, file, op));
    var s2 := Step(maxLifetime, s1, Advance(c, Up));
    var s3 := Step(maxLifetime, s2, Advance(c, Up));
    Step(maxLifetime, s3, Advance(c, Up))
  }
}
