/** What holds of the lock table and of every call in flight, in every reachable state. */
module LockInvariant {
  import opened Wrappers
  import opened LockTable
  import opened LockProtocol

  ghost predicate RowsOk(s: State) {
    forall f :: f in s.rows ==>
      && s.rows[f].lockId != ""
      && s.rows[f].createdAt <= s.now
      && s.rows[f].expiresAt <= s.now + LOCK_DURATION
  }

  // The call has looked at the table: `snap` is what the table showed at that instant,
  // at which the call was in flight.
  ghost predicate HasRead(maxLifetime: int, evs: seq<Event>, c: nat, call: Call) {
    && call.begun < call.readAt < |evs|
    && var past := At(maxLifetime, evs, call.readAt);
    && call.snap == Find(past.rows, past.now, call.file)
    && c in past.calls
    && (past.calls[c].pc == Reading || past.calls[c].pc == Refetching)
    && past.calls[c].begun == call.begun
  }

  // Each program point is reached only along the branches that lead to it.
  ghost predicate PointOk(maxLifetime: int, call: Call) {
    match call.pc
    case Reading => FirstPc(call.op) == Reading
    case Clocking => FirstPc(call.op) == Reading && AfterRead(call.op, call.snap) == Clocking
    case Committing(stmt) =>
      && FirstPc(call.op) == Reading
      && (stmt.Delete? ==> AfterRead(call.op, call.snap) == Committing(stmt))
      && (!stmt.Delete? ==>
            && AfterRead(call.op, call.snap) == Clocking
            && AfterClock(call.op, call.snap, call.sample, maxLifetime) == Committing(stmt))
    case Refetching => call.op.Lock?
    case Storing => FirstPc(call.op) == Reading && AfterRead(call.op, call.snap) == Storing
    case Finished(outcome) => outcome.Conflict? && outcome.lockId != "" ==> IdOf(call.snap) == outcome.lockId
  }

  ghost predicate CallOk(maxLifetime: int, evs: seq<Event>, c: nat, call: Call) {
    && call.begun < |evs|
    && PointOk(maxLifetime, call)
    && (match call.pc
        case Reading => true
        case Finished(outcome) => outcome.Conflict? ==> HasRead(maxLifetime, evs, c, call)
        case _ => HasRead(maxLifetime, evs, c, call))
  }

  ghost predicate RunOk(maxLifetime: int, evs: seq<Event>) {
    var s := Exec(maxLifetime, evs);
    && RowsOk(s)
    && (forall c :: c in s.calls ==> s.calls[c].sample <= s.now)
    && (forall c :: c in s.calls ==> CallOk(maxLifetime, evs, c, s.calls[c]))
  }

  // What one step does to one call.
  lemma CallStep(maxLifetime: int, s: State, e: Event, c: nat)
    requires c in Step(maxLifetime, s, e).calls
    ensures var t := Step(maxLifetime, s, e);
            && s.now <= t.now
            && (c !in s.calls ==>
                  e.Begin? && t.calls[c] == Call(e.file, e.op, FirstPc(e.op), s.steps, s.steps, None, s.now))
            && (c in s.calls && !(e.Advance? && e.c == c) ==> t.calls[c] == s.calls[c])
  {
  }

  lemma NewCallOk(maxLifetime: int, evs: seq<Event>, c: nat, file: string, op: Op, begun: nat, now: int)
    requires begun < |evs|
    ensures CallOk(maxLifetime, evs, c, Call(file, op, FirstPc(op), begun, begun, None, now))
  {
  }

  lemma CallKept(maxLifetime: int, past: seq<Event>, e: Event, c: nat)
    requires RunOk(maxLifetime, past) && c in Step(maxLifetime, Exec(maxLifetime, past), e).calls
    ensures var t := Step(maxLifetime, Exec(maxLifetime, past), e);
            t.calls[c].sample <= t.now && CallOk(maxLifetime, past + [e], c, t.calls[c])
  {
    hide Step, CallOk, Exec;
    var s, evs := Exec(maxLifetime, past), past + [e];
    CallStep(maxLifetime, s, e, c);
    if c !in s.calls {
      NewCallOk(maxLifetime, evs, c, e.file, e.op, s.steps, s.now);
    } else if e.Advance? && e.c == c {
      AdvanceKept(maxLifetime, past, evs, c, e.link);
      ExecAppend(maxLifetime, past, e);
    } else {
      StillOk(maxLifetime, past, evs, c, s.calls[c]);
    }
  }

  lemma {:induction false} Reachable(maxLifetime: int, evs: seq<Event>)
    ensures RunOk(maxLifetime, evs)
  {
    hide Step, CallOk;
    if evs == [] {
    } else {
      var past, e := evs[..|evs| - 1], evs[|evs| - 1];
      Reachable(maxLifetime, past);
      var t := Exec(maxLifetime, evs);
      assert evs == past + [e] && t == Step(maxLifetime, Exec(maxLifetime, past), e);
      RowsKept(maxLifetime, past, e);
      forall c | c in t.calls ensures t.calls[c].sample <= t.now && CallOk(maxLifetime, evs, c, t.calls[c]) {
        CallKept(maxLifetime, past, e, c);
      }
    }
  }

  // A statement of a call still holds what the call computed from its own clock sample.
  ghost predicate StmtOk(stmt: Stmt, now: int) {
    match stmt
    case Insert(id, expires, created) => id != "" && created <= now && expires <= now + LOCK_DURATION
    case Extend(id, expires) => expires <= now + LOCK_DURATION
    case Swap(_, id, expires) => id != "" && expires <= now + LOCK_DURATION
    case Delete(_) => true
    case Take(_, id, created, expires) => id != "" && created <= now && expires <= now + LOCK_DURATION
  }

  lemma CommitOk(maxLifetime: int, call: Call, now: int)
    requires call.pc.Committing? && PointOk(maxLifetime, call) && call.sample <= now
    ensures StmtOk(call.pc.stmt, now)
  {
    match call.op
    case Lock(_) =>
    case Unlock(_) =>
    case Refresh(_) =>
    case Relock(_, _) =>
    case Put(_, _) =>
    case Query =>
  }

  lemma ApplyKeeps(stmt: Stmt, s: State, file: string)
    requires RowsOk(s) && StmtOk(stmt, s.now)
    ensures RowsOk(s.(rows := Apply(stmt, s.rows, s.now, file)))
  {
    var rows := Apply(stmt, s.rows, s.now, file);
    forall f | f in rows
      ensures rows[f].lockId != "" && rows[f].createdAt <= s.now && rows[f].expiresAt <= s.now + LOCK_DURATION
    {
      if f != file {
        assert f in s.rows && rows[f] == s.rows[f];
      }
    }
  }

  lemma RowsKept(maxLifetime: int, past: seq<Event>, e: Event)
    requires RunOk(maxLifetime, past)
    ensures RowsOk(Step(maxLifetime, Exec(maxLifetime, past), e))
  {
    hide AfterRead, AfterClock, HasRead;
    var s := Exec(maxLifetime, past);
    if e.Advance? && e.c in s.calls && s.calls[e.c].pc.Committing? {
      var call := s.calls[e.c];
      assert CallOk(maxLifetime, past, e.c, call);
      CommitOk(maxLifetime, call, s.now);
      ApplyKeeps(call.pc.stmt, s, call.file);
    }
  }

  // What a call has read stays what it has read as the run goes on.
  lemma StillOk(maxLifetime: int, past: seq<Event>, evs: seq<Event>, c: nat, call: Call)
    requires |evs| == |past| + 1 && past == evs[..|past|]
    requires CallOk(maxLifetime, past, c, call)
    ensures CallOk(maxLifetime, evs, c, call)
  {
    if call.readAt < |past| {
      SamePast(maxLifetime, evs, |past|, call.readAt);
    }
  }

  // A call that has just looked at the table.
  lemma ReadKept(maxLifetime: int, s: State, past: seq<Event>, evs: seq<Event>, c: nat, link: Link)
    requires s == Exec(maxLifetime, past) && evs == past + [Advance(c, link)]
    requires c in s.calls && (s.calls[c].pc.Reading? || s.calls[c].pc.Refetching?)
    requires CallOk(maxLifetime, past, c, s.calls[c])
    ensures var t := Step(maxLifetime, s, Advance(c, link));
            && c in t.calls && t.calls[c].sample == s.calls[c].sample && t.calls[c].begun == s.calls[c].begun
            && t.now == s.now
            && PointOk(maxLifetime, t.calls[c]) && HasRead(maxLifetime, evs, c, t.calls[c])
  {
    hide Exec;
    assert evs[..|past|] == past;
    assert At(maxLifetime, evs, |past|) == s;
  }

  // A call that goes on with what it has read.
  lemma WriteKept(maxLifetime: int, s: State, evs: seq<Event>, c: nat, link: Link)
    requires s.steps < |evs| && c in s.calls && !s.calls[c].pc.Reading? && !s.calls[c].pc.Refetching?
    requires CallOk(maxLifetime, evs, c, s.calls[c]) && s.calls[c].sample <= s.now
    ensures var t := Step(maxLifetime, s, Advance(c, link));
            c in t.calls && t.calls[c].sample <= t.now && CallOk(maxLifetime, evs, c, t.calls[c])
  {
    hide At, Find, Matches, Apply;
  }

  lemma AdvanceKept(maxLifetime: int, past: seq<Event>, evs: seq<Event>, c: nat, link: Link)
    requires evs == past + [Advance(c, link)]
    requires RunOk(maxLifetime, past)
    requires c in Exec(maxLifetime, past).calls
    ensures var t := Exec(maxLifetime, evs);
            c in t.calls && t.calls[c].sample <= t.now && CallOk(maxLifetime, evs, c, t.calls[c])
  {
    hide Step, HasRead, PointOk, At;
    var s := Exec(maxLifetime, past);
    ExecAppend(maxLifetime, past, Advance(c, link));
    if s.calls[c].pc.Reading? || s.calls[c].pc.Refetching? {
      ReadKept(maxLifetime, s, past, evs, c, link);
    } else {
      StillOk(maxLifetime, past, evs, c, s.calls[c]);
      WriteKept(maxLifetime, s, evs, c, link);
    }
  }
}
