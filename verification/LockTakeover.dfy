/** The lock table with takeovers, run one operation at a time, behaves like a map of tenures
    beside the remnants of expired ones. Of an expired row nothing shows but its age, which
    the next lock of the file takes over; and the sweep, which clears remnants away, is an
    operation of its own. */
module LockTakeover {
  import opened Wrappers
  import opened LockTable
  import opened LockProtocol
  import opened Permissions
  import LockRefinement

  // `since` is what the lock's age is counted from.
  datatype Tenure = Tenure(lockId: string, expiresAt: int, since: int)

  // An expired row: whose it was no longer matters.
  datatype Remnant = Remnant(expiredAt: int, since: int)

  // `contents` says which call last wrote a file, as in the lock protocol.
  datatype Tenures = Tenures(now: int, live: map<string, Tenure>, remnants: map<string, Remnant>,
                             contents: map<string, nat>)

  function Abstraction(s: State): Tenures {
    Tenures(s.now,
            map f | f in s.rows && s.rows[f].expiresAt > s.now ::
              Tenure(s.rows[f].lockId, s.rows[f].expiresAt, s.rows[f].createdAt),
            map f | f in s.rows && s.rows[f].expiresAt <= s.now :: Remnant(s.rows[f].expiresAt, s.rows[f].createdAt),
            s.contents)
  }

  predicate Holds(l: Tenures, file: string, id: string) {
    file in l.live && l.live[file].lockId == id
  }

  function HeldId(l: Tenures, file: string): string {
    if file in l.live then l.live[file].lockId else ""
  }

  // The file is held under this ID for a lock duration from now, at this age.
  function Grant(l: Tenures, file: string, id: string, since: int): Tenures {
    l.(live := l.live[file := Tenure(id, l.now + LOCK_DURATION, since)], remnants := l.remnants - {file})
  }

  // The tenure is older than a lock may be against another session.
  predicate Overdue(maxLifetime: int, l: Tenures, file: string) {
    maxLifetime > 0 && file in l.live && l.now - l.live[file].since > maxLifetime
  }

  function Serve(maxLifetime: int, l: Tenures, file: string, op: Op, c: nat): (Tenures, Outcome) {
    match op
    case Lock(id) =>
      if id == "" then (l, BadRequest)
      else if file !in l.live then
        (Grant(l, file, id, if file in l.remnants then l.remnants[file].since else l.now), Granted)
      else if Holds(l, file, id) then (Grant(l, file, id, l.live[file].since), Granted)
      else if Overdue(maxLifetime, l, file) then (Grant(l, file, id, l.now), Granted)
      else (l, Conflict(HeldId(l, file)))
    case Unlock(id) =>
      if Holds(l, file, id) then (l.(live := l.live - {file}), Granted) else (l, Conflict(HeldId(l, file)))
    case Refresh(id) =>
      if Holds(l, file, id) then (Grant(l, file, id, l.live[file].since), Granted) else (l, Conflict(HeldId(l, file)))
    case Relock(newId, id) =>
      if newId == "" || id == "" then (l, BadRequest)
      else if Holds(l, file, id) then (Grant(l, file, newId, l.live[file].since), Granted)
      else (l, Conflict(HeldId(l, file)))
    case Put(permissions, id) =>
      if "write" !in Split(permissions) then (l, Forbidden)
      else if file !in l.live || (id != "" && Holds(l, file, id)) then (l.(contents := l.contents[file := c]), Granted)
      else (l, Conflict(HeldId(l, file)))
    case Query =>
      (l, Status(if file in l.live
                 then Some(Row(l.live[file].lockId, l.live[file].expiresAt, l.live[file].since)) else None))
  }

  // Time passes: tenures that run out leave remnants.
  function Pass(l: Tenures, delay: nat): Tenures {
    var now := l.now + delay;
    Tenures(now,
            map f | f in l.live && l.live[f].expiresAt > now :: l.live[f],
            l.remnants + map f | f in l.live && l.live[f].expiresAt <= now ::
              Remnant(l.live[f].expiresAt, l.live[f].since),
            l.contents)
  }

  // The sweep clears away what expired before now.
  function Clear(l: Tenures, link: Link): Tenures {
    if link == DownBefore then l
    else l.(remnants := map f | f in l.remnants && l.remnants[f].expiredAt >= l.now :: l.remnants[f])
  }

  // What the callers of a script see, ages included.
  function Answers(maxLifetime: int, s: State, script: seq<LockRefinement.Item>): seq<Outcome>
    decreases script
  {
    if script == [] then [] else
    match script[0]
    case Do(file, op) =>
      var t := Solo(maxLifetime, s, s.steps, file, op);
      (if s.steps in t.calls && t.calls[s.steps].pc.Finished? then [t.calls[s.steps].pc.outcome] else [])
      + Answers(maxLifetime, t, script[1..])
    case Wait(delay) => Answers(maxLifetime, Step(maxLifetime, s, Tick(delay)), script[1..])
    case Clean(link) => Answers(maxLifetime, Step(maxLifetime, s, CleanUp(link)), script[1..])
  }

  // A call is named by the instant at which it begins, and takes four steps.
  function TenureAnswers(maxLifetime: int, l: Tenures, n: nat, script: seq<LockRefinement.Item>): seq<Outcome>
    decreases script
  {
    if script == [] then [] else
    match script[0]
    case Do(file, op) =>
      var (after, outcome) := Serve(maxLifetime, l, file, op, n);
      [outcome] + TenureAnswers(maxLifetime, after, n + 4, script[1..])
    case Wait(delay) => TenureAnswers(maxLifetime, Pass(l, delay), n + 1, script[1..])
    case Clean(link) => TenureAnswers(maxLifetime, Clear(l, link), n + 1, script[1..])
  }

  function TenuresAfter(maxLifetime: int, l: Tenures, n: nat, script: seq<LockRefinement.Item>): Tenures
    decreases script
  {
    if script == [] then l else
    match script[0]
    case Do(file, op) => TenuresAfter(maxLifetime, Serve(maxLifetime, l, file, op, n).0, n + 4, script[1..])
    case Wait(delay) => TenuresAfter(maxLifetime, Pass(l, delay), n + 1, script[1..])
    case Clean(link) => TenuresAfter(maxLifetime, Clear(l, link), n + 1, script[1..])
  }

  // What a call run on its own does, seen through the tenures.
  ghost predicate EndIsServe(maxLifetime: int, s: State, file: string, op: Op) {
    var (rows, contents, pc) := LockRefinement.SoloEnd(maxLifetime, s, file, op);
    var (after, outcome) := Serve(maxLifetime, Abstraction(s), file, op, s.steps);
    && pc.Finished? && pc.outcome == outcome
    && Abstraction(s.(rows := rows, contents := contents)) == after
  }

  // A row given to a file is its tenure, and nothing else changes.
  lemma GrantIs(s: State, file: string, id: string, since: int)
    ensures Abstraction(s.(rows := s.rows[file := Row(id, s.now + LOCK_DURATION, since)]))
         == Grant(Abstraction(s), file, id, since)
  {
  }

  lemma ReleaseIs(s: State, file: string)
    requires file in Abstraction(s).live
    ensures Abstraction(s.(rows := s.rows - {file})) == Abstraction(s).(live := Abstraction(s).live - {file})
  {
  }

  lemma LockRefines(maxLifetime: int, s: State, file: string, id: string)
    ensures EndIsServe(maxLifetime, s, file, Lock(id))
  {
    hide Abstraction, Grant;
    FoundIs(s, file);
    if id != "" {
      GrantIs(s, file, id, s.now);
      if file in s.rows {
        GrantIs(s, file, id, s.rows[file].createdAt);
      }
    }
  }

  // What the tenures and remnants show of one file.
  lemma FoundIs(s: State, file: string)
    ensures var l, found := Abstraction(s), Find(s.rows, s.now, file);
            && l.now == s.now
            && (file in l.live <==> found.Some?)
            && (found.Some? ==>
                  l.live[file] == Tenure(found.value.lockId, found.value.expiresAt, found.value.createdAt))
            && (file in l.remnants <==> file in s.rows && found == None)
            && (file in l.remnants ==> l.remnants[file] == Remnant(s.rows[file].expiresAt, s.rows[file].createdAt))
  {
  }

  lemma UnlockRefines(maxLifetime: int, s: State, file: string, id: string)
    ensures EndIsServe(maxLifetime, s, file, Unlock(id))
  {
    hide Abstraction;
    FoundIs(s, file);
    if Holds(Abstraction(s), file, id) {
      ReleaseIs(s, file);
    }
  }

  lemma RefreshRefines(maxLifetime: int, s: State, file: string, id: string)
    ensures EndIsServe(maxLifetime, s, file, Refresh(id))
  {
    hide Abstraction, Grant;
    FoundIs(s, file);
    if file in s.rows {
      GrantIs(s, file, id, s.rows[file].createdAt);
    }
  }

  lemma RelockRefines(maxLifetime: int, s: State, file: string, newId: string, id: string)
    ensures EndIsServe(maxLifetime, s, file, Relock(newId, id))
  {
    hide Abstraction, Grant;
    FoundIs(s, file);
    if file in s.rows {
      GrantIs(s, file, newId, s.rows[file].createdAt);
    }
  }

  lemma EndRefines(maxLifetime: int, s: State, file: string, op: Op)
    ensures EndIsServe(maxLifetime, s, file, op)
  {
    hide Abstraction, Grant;
    match op
    case Lock(id) => LockRefines(maxLifetime, s, file, id);
    case Unlock(id) => UnlockRefines(maxLifetime, s, file, id);
    case Refresh(id) => RefreshRefines(maxLifetime, s, file, id);
    case Relock(newId, id) => RelockRefines(maxLifetime, s, file, newId, id);
    case Put(_, _) =>
      FoundIs(s, file);
      SaveIs(s, file);
    case Query => FoundIs(s, file);
  }

  lemma SaveIs(s: State, file: string)
    ensures Abstraction(s.(contents := s.contents[file := s.steps]))
         == Abstraction(s).(contents := Abstraction(s).contents[file := s.steps])
  {
  }

  lemma OnlyTheTable(s: State, t: State)
    requires t.now == s.now && t.rows == s.rows && t.contents == s.contents
    ensures Abstraction(t) == Abstraction(s)
  {
  }

  lemma {:induction false} SoloRefines(maxLifetime: int, s: State, file: string, op: Op)
    requires s.steps !in s.calls
    ensures var t := Solo(maxLifetime, s, s.steps, file, op);
            var (after, outcome) := Serve(maxLifetime, Abstraction(s), file, op, s.steps);
            && Abstraction(t) == after
            && s.steps in t.calls && t.calls[s.steps].pc == Finished(outcome)
            && t.steps == s.steps + 4 && t.calls.Keys == s.calls.Keys + {s.steps}
  {
    hide Solo, Abstraction, Serve, LockRefinement.SoloEnd;
    LockRefinement.SoloEnds(maxLifetime, s, file, op);
    EndRefines(maxLifetime, s, file, op);
    var (rows, contents, pc) := LockRefinement.SoloEnd(maxLifetime, s, file, op);
    OnlyTheTable(s.(rows := rows, contents := contents), Solo(maxLifetime, s, s.steps, file, op));
  }

  lemma TickIs(maxLifetime: int, s: State, delay: nat)
    ensures var t := Step(maxLifetime, s, Tick(delay));
            && t.now == s.now + delay && t.rows == s.rows && t.contents == s.contents
            && t.calls == s.calls && t.steps == s.steps + 1
  {
  }

  lemma TenuresPass(s: State, t: State, delay: nat)
    requires t.now == s.now + delay && t.rows == s.rows
    ensures Abstraction(t).live == Pass(Abstraction(s), delay).live
  {
  }

  lemma RemnantsPass(s: State, t: State, delay: nat)
    requires t.now == s.now + delay && t.rows == s.rows
    ensures Abstraction(t).remnants == Pass(Abstraction(s), delay).remnants
  {
  }

  lemma TheRestPasses(s: State, t: State, delay: nat)
    requires t.now == s.now + delay && t.contents == s.contents
    ensures Abstraction(t).now == Pass(Abstraction(s), delay).now
    ensures Abstraction(t).contents == Pass(Abstraction(s), delay).contents
  {
  }

  lemma WaitRefines(maxLifetime: int, s: State, delay: nat)
    ensures var t := Step(maxLifetime, s, Tick(delay));
            && Abstraction(t) == Pass(Abstraction(s), delay)
            && t.calls == s.calls && t.steps == s.steps + 1
  {
    hide Step, Abstraction, Pass;
    var t := Step(maxLifetime, s, Tick(delay));
    TickIs(maxLifetime, s, delay);
    TheRestPasses(s, t, delay);
    TenuresPass(s, t, delay);
    RemnantsPass(s, t, delay);
  }

  lemma SweepRefines(maxLifetime: int, s: State, link: Link)
    ensures var t := Step(maxLifetime, s, CleanUp(link));
            && Abstraction(t) == Clear(Abstraction(s), link)
            && t.calls == s.calls && t.steps == s.steps + 1
  {
  }

  /** With any maximum lifetime, all answers of every one-at-a-time script with waits and
      sweeps are those of the tenures and remnants. */
  lemma {:induction false} TableRefinesTenures(maxLifetime: int, s: State, script: seq<LockRefinement.Item>)
    requires forall c :: c in s.calls ==> c < s.steps
    ensures Answers(maxLifetime, s, script) == TenureAnswers(maxLifetime, Abstraction(s), s.steps, script)
    ensures Abstraction(LockRefinement.After(maxLifetime, s, script))
         == TenuresAfter(maxLifetime, Abstraction(s), s.steps, script)
    decreases script
  {
    hide Abstraction, Step, Solo, Serve, Pass, Clear;
    if script == [] {
    } else {
      match script[0]
      case Do(file, op) =>
        SoloRefines(maxLifetime, s, file, op);
        TableRefinesTenures(maxLifetime, Solo(maxLifetime, s, s.steps, file, op), script[1..]);
      case Wait(delay) =>
        WaitRefines(maxLifetime, s, delay);
        TableRefinesTenures(maxLifetime, Step(maxLifetime, s, Tick(delay)), script[1..]);
      case Clean(link) =>
        SweepRefines(maxLifetime, s, link);
        TableRefinesTenures(maxLifetime, Step(maxLifetime, s, CleanUp(link)), script[1..]);
    }
  }
}
