/** Single-flight: what a job does with what it renders, what a failing job leaves alone,
    and which of the callers sharing a flight are turned away as stale. */
module PreviewFlights {
  import opened Wrappers
  import opened PreviewProtocol
  import opened PreviewInvariant
  import opened PreviewTheorems

  // A job goes on with the date it has, or has just looked its source up.
  ghost predicate Carries(st: State, e: Event, s: FileId, job: Job, next: Job) {
    && next.before == job.before
    && (next.doubted <==> job.doubted || (job.pc.Commit? && e.Work? && e.s == s && !e.ok && e.applied))
    && (var date, verdict := DateOf(next.pc), VerdictOf(next.pc);
        || (job.pc.LookUpAgain? && next.lookedUpAt == st.steps && verdict == None
            && (date.Some? ==> s in st.sources && date.value == st.sources[s].date))
        || (next.lookedUpAt == job.lookedUpAt
            && (date.Some? ==> date == DateOf(job.pc))
            && (verdict.Some? && verdict.value.Ready? ==>
                  verdict == VerdictOf(job.pc) || DateOf(job.pc) == Some(verdict.value.entry.date))))
  }

  ghost predicate FlightStep(st: State, t: State, e: Event, s: FileId) {
    s in t.flights ==>
      if s in st.flights then Carries(st, e, s, st.flights[s], t.flights[s])
      else t.flights[s] == NewJob(st, s)
  }

  lemma QuietCarries(capacity: nat, st: State, u: State, e: Event, s: FileId, job: Job, ok: bool)
    requires u == st.(steps := st.steps + 1) && IsQuiet(job.pc) && JobOk(st, s, job)
    ensures Carries(st, e, s, job, NextJob(capacity, u, s, job, ok))
  {
  }

  // A step of the job of s leaves the other flights in the air.
  ghost predicate OneFlight(st: State, t: State, s: FileId) {
    forall z :: z != s && z in t.flights ==> z in st.flights && t.flights[z] == st.flights[z]
  }

  lemma FailedCommitIs(capacity: nat, u: State, e: Event)
    requires u.steps > 0 && e.Work? && e.s in u.flights && u.flights[e.s].pc.Commit? && !e.ok && !e.applied
    ensures StepJob(capacity, u, e.s, u.flights[e.s], e.ok, e.applied, e.newId)
         == u.(flights := u.flights[e.s := u.flights[e.s].(pc := AfterFailedCommit(u.flights[e.s].pc))])
  {
  }

  lemma InPlaceCarries(capacity: nat, u: State, e: Event)
    requires u.steps > 0 && e.Work? && e.s in u.flights && u.flights[e.s].pc.Store?
    requires u.flights[e.s].pc.target.Some?
    ensures var t := StepStore(u, e.s, u.flights[e.s], e.ok, e.applied, e.newId);
            FlightStep(u, t, e, e.s) && OneFlight(u, t, e.s)
  {
  }

  lemma NewCarries(capacity: nat, u: State, e: Event)
    requires u.steps > 0 && e.Work? && e.s in u.flights && u.flights[e.s].pc.Store?
    requires u.flights[e.s].pc.target.None?
    ensures var t := StepStore(u, e.s, u.flights[e.s], e.ok, e.applied, e.newId);
            FlightStep(u, t, e, e.s) && OneFlight(u, t, e.s)
  {
  }

  lemma StoreCarries(capacity: nat, u: State, e: Event)
    requires u.steps > 0 && e.Work? && e.s in u.flights && u.flights[e.s].pc.Store?
    ensures var t := StepJob(capacity, u, e.s, u.flights[e.s], e.ok, e.applied, e.newId);
            FlightStep(u, t, e, e.s) && OneFlight(u, t, e.s)
  {
    if u.flights[e.s].pc.target.Some? {
      InPlaceCarries(capacity, u, e);
    } else {
      NewCarries(capacity, u, e);
    }
  }

  lemma CommitCarries(capacity: nat, u: State, e: Event)
    requires u.steps > 0 && e.Work? && e.s in u.flights && LinearOk(u.flights[e.s]) && !u.flights[e.s].doubted
    requires u.flights[e.s].pc.Commit?
    ensures var t := StepJob(capacity, u, e.s, u.flights[e.s], e.ok, e.applied, e.newId);
            FlightStep(u, t, e, e.s) && OneFlight(u, t, e.s)
  {
    hide StepStore, StepQuiet;
    if !e.ok && !e.applied {
      FailedCommitIs(capacity, u, e);
    } else {
      WorkIs(capacity, u, e.s, e.ok, e.applied, e.newId);
    }
  }

  lemma DiscardCarries(capacity: nat, u: State, e: Event)
    requires u.steps > 0 && e.Work? && e.s in u.flights && u.flights[e.s].pc.Discard?
    ensures var t := StepJob(capacity, u, e.s, u.flights[e.s], e.ok, e.applied, e.newId);
            FlightStep(u, t, e, e.s) && OneFlight(u, t, e.s)
  {
  }

  lemma TableStepCarries(capacity: nat, st: State, e: Event)
    requires e.Work? && e.s in st.flights && !IsQuiet(st.flights[e.s].pc) && !st.flights[e.s].pc.Publish?
    requires JobOk(st, e.s, st.flights[e.s])
    ensures var t := Step(capacity, st, e); FlightStep(st, t, e, e.s) && OneFlight(st, t, e.s)
  {
    var u := st.(steps := st.steps + 1);
    WorkStepIs(capacity, st, e);
    var pc := st.flights[e.s].pc;
    if pc.Store? {
      StoreCarries(capacity, u, e);
    } else if pc.Commit? {
      CommitCarries(capacity, u, e);
    } else {
      DiscardCarries(capacity, u, e);
    }
  }

  lemma QuietStepCarries(capacity: nat, st: State, e: Event)
    requires e.Work? && e.s in st.flights && (IsQuiet(st.flights[e.s].pc) || st.flights[e.s].pc.Publish?)
    requires JobOk(st, e.s, st.flights[e.s])
    ensures var t := Step(capacity, st, e); FlightStep(st, t, e, e.s) && OneFlight(st, t, e.s)
  {
    var u := st.(steps := st.steps + 1);
    WorkStepIs(capacity, st, e);
    if IsQuiet(st.flights[e.s].pc) {
      QuietIs(capacity, st, e.s, e.ok, e.applied, e.newId);
      QuietCarries(capacity, st, u, e, e.s, st.flights[e.s], e.ok);
    }
  }

  lemma WorkCarries(capacity: nat, st: State, e: Event, s: FileId)
    requires e.Work? && (e.s in st.flights ==> JobOk(st, e.s, st.flights[e.s]))
    ensures FlightStep(st, Step(capacity, st, e), e, s)
  {
    if e.s !in st.flights {
      WorkStepIs(capacity, st, e);
    } else if IsQuiet(st.flights[e.s].pc) || st.flights[e.s].pc.Publish? {
      QuietStepCarries(capacity, st, e);
    } else {
      TableStepCarries(capacity, st, e);
    }
  }

  lemma ServeCarries(capacity: nat, st: State, e: Event, s: FileId)
    requires e.Serve?
    ensures FlightStep(st, Step(capacity, st, e), e, s)
  {
  }

  lemma OutsideCarries(capacity: nat, st: State, e: Event, s: FileId)
    requires !e.Serve? && !e.Work?
    ensures FlightStep(st, Step(capacity, st, e), e, s)
  {
  }

  lemma FlightSteps(capacity: nat, st: State, e: Event, s: FileId)
    requires e.Work? && e.s in st.flights ==> JobOk(st, e.s, st.flights[e.s])
    ensures FlightStep(st, Step(capacity, st, e), e, s)
  {
    if e.Work? {
      WorkCarries(capacity, st, e, s);
    } else if e.Serve? {
      ServeCarries(capacity, st, e, s);
    } else {
      OutsideCarries(capacity, st, e, s);
    }
  }

  /** Each job renders at most once; what it renders goes to one place at most, to exactly
      one if the job succeeds; and when it is to create a file, no mapping exists for its
      source or the mapped row is gone. */
  lemma {:induction false} RendersGoToOnePlace(capacity: nat, evs: seq<Event>, s: FileId)
    requires s in Exec(capacity, evs).flights
    ensures var st := Exec(capacity, evs);
            var job := st.flights[s];
            && job.renders <= 1 && job.writes + job.creates <= job.renders
            && (job.pc.Publish? && job.pc.verdict.Ready? ==> job.writes + job.creates == job.renders)
            && (job.pc.Store? && job.pc.target == None && s in st.mapping ==>
                  st.mapping[s].previewId !in st.previews)
            && (job.pc.Store? && job.pc.target.Some? ==>
                  s in st.mapping && job.pc.target.value == st.mapping[s].previewId)
  {
    Reachable(capacity, evs);
    assert JobOk(Exec(capacity, evs), s, Exec(capacity, evs).flights[s]);
  }

  // The same flight of s is in the air from i to j, having just taken off at i.
  ghost predicate InTheAir(capacity: nat, evs: seq<Event>, i: nat, j: nat, s: FileId)
    requires i <= j <= |evs|
  {
    && (forall k :: i <= k <= j ==> FlyingAt(capacity, evs, k, s))
    && FlyingAt(capacity, evs, i, s) && FlyingAt(capacity, evs, j, s)
    && At(capacity, evs, i).flights[s] == NewJob(At(capacity, evs, i), s)
  }

  ghost predicate FlyingAt(capacity: nat, evs: seq<Event>, k: nat, s: FileId)
    requires k <= |evs|
  {
    s in At(capacity, evs, k).flights
  }

  lemma FlightNext(capacity: nat, evs: seq<Event>, i: nat, s: FileId)
    requires i < |evs|
    ensures FlightStep(At(capacity, evs, i), At(capacity, evs, i + 1), evs[i], s)
  {
    NextState(capacity, evs, i);
    WorkerOk(capacity, evs[..i], evs[i]);
    FlightSteps(capacity, At(capacity, evs, i), evs[i], s);
  }

  // The job that an event is about to move is in order.
  lemma WorkerOk(capacity: nat, evs: seq<Event>, e: Event)
    ensures e.Work? && e.s in Exec(capacity, evs).flights ==>
              JobOk(Exec(capacity, evs), e.s, Exec(capacity, evs).flights[e.s])
  {
    Reachable(capacity, evs);
  }

  // Event k updates the mapping of s, and the job is told that it has not.
  ghost predicate BetraysAt(capacity: nat, evs: seq<Event>, k: nat, s: FileId)
    requires k < |evs|
  {
    var st := At(capacity, evs, k);
    evs[k].Work? && evs[k].s == s && s in st.flights && st.flights[s].pc.Commit? && !evs[k].ok && evs[k].applied
  }

  // What the update of event k writes, whatever the job is told.
  ghost function WrittenAt(capacity: nat, evs: seq<Event>, k: nat, s: FileId): Option<Entry>
    requires k < |evs| && BetraysAt(capacity, evs, k, s)
  {
    var pc := At(capacity, evs, k).flights[s].pc;
    Some(Entry(pc.previewId, pc.date))
  }

  // A step of the run leaves the mapping of s alone unless the job of s commits in it.
  lemma MappingNext(capacity: nat, evs: seq<Event>, k: nat, s: FileId)
    requires k < |evs| && FlyingAt(capacity, evs, k, s)
    ensures BetraysAt(capacity, evs, k, s) ==>
              MappedOf(At(capacity, evs, k + 1), s) == WrittenAt(capacity, evs, k, s)
    ensures !At(capacity, evs, k).flights[s].pc.Commit? ==>
              MappedOf(At(capacity, evs, k + 1), s) == MappedOf(At(capacity, evs, k), s)
  {
    hide Step, JobOk;
    PreviewTheorems.CommitFacts(capacity, evs, k);
  }

  // What a flight has done to the mapping so far: its job knows whether it was betrayed,
  // and once it has been, the mapping is what it wrote.
  lemma {:induction false} FlightHistory(capacity: nat, evs: seq<Event>, i: nat, j: nat, s: FileId)
    requires i <= j <= |evs| && InTheAir(capacity, evs, i, j, s)
    ensures var job := At(capacity, evs, j).flights[s];
            && job.before == MappedOf(At(capacity, evs, i), s)
            && (job.doubted <==> exists k :: i <= k < j && BetraysAt(capacity, evs, k, s))
            && (forall k :: i <= k < j && BetraysAt(capacity, evs, k, s) ==>
                  MappedOf(At(capacity, evs, j), s) == WrittenAt(capacity, evs, k, s))
    decreases j - i
  {
    hide Step, WrittenAt, At, JobOk, BetraysAt;
    if i < j {
      assert FlyingAt(capacity, evs, j - 1, s) && FlyingAt(capacity, evs, j, s);
      FlightHistory(capacity, evs, i, j - 1, s);
      DoubtGrows(capacity, evs, j - 1, s);
      MappingNext(capacity, evs, j - 1, s);
      BetrayedOnce(capacity, evs, j - 1, s);
      assert (exists k :: i <= k < j && BetraysAt(capacity, evs, k, s))
        <==> (exists k :: i <= k < j - 1 && BetraysAt(capacity, evs, k, s)) || BetraysAt(capacity, evs, j - 1, s);
    }
  }

  // What a step does to what the job knows of its origin and of a betrayal.
  lemma DoubtGrows(capacity: nat, evs: seq<Event>, j: nat, s: FileId)
    requires j < |evs| && FlyingAt(capacity, evs, j, s) && FlyingAt(capacity, evs, j + 1, s)
    ensures var job, next := At(capacity, evs, j).flights[s], At(capacity, evs, j + 1).flights[s];
            && next.before == job.before
            && (next.doubted <==> job.doubted || BetraysAt(capacity, evs, j, s))
  {
    hide Step, At, JobOk;
    FlightNext(capacity, evs, j, s);
  }

  // A job that is betrayed has not been before; one that was does not commit again.
  lemma BetrayedOnce(capacity: nat, evs: seq<Event>, j: nat, s: FileId)
    requires j < |evs| && FlyingAt(capacity, evs, j, s)
    ensures At(capacity, evs, j).flights[s].doubted ==>
              !At(capacity, evs, j).flights[s].pc.Commit? && !BetraysAt(capacity, evs, j, s)
  {
    hide Step, At, JobOk;
    CommitsUndoubted(capacity, evs, j, s);
  }

  // A job commits at most once: one that is at its commit has not been betrayed.
  lemma CommitsUndoubted(capacity: nat, evs: seq<Event>, j: nat, s: FileId)
    requires j <= |evs| && FlyingAt(capacity, evs, j, s)
    ensures At(capacity, evs, j).flights[s].pc.Commit? ==> !At(capacity, evs, j).flights[s].doubted
  {
    Reachable(capacity, evs[..j]);
    assert JobOk(At(capacity, evs, j), s, At(capacity, evs, j).flights[s]);
  }

  /** A job that fails, wherever it fails, leaves the mapping of its source other than it
      found it exactly when an update reported to it as failed took effect, and wrote
      something else than was there. */
  lemma FailureLeavesMapping(capacity: nat, evs: seq<Event>, i: nat, j: nat, s: FileId)
    requires i <= j <= |evs| && InTheAir(capacity, evs, i, j, s)
    requires var pc := At(capacity, evs, j).flights[s].pc; pc.Publish? && pc.verdict.Fault?
    ensures MappedOf(At(capacity, evs, j), s) != MappedOf(At(capacity, evs, i), s)
       <==> exists k :: i <= k < j && BetraysAt(capacity, evs, k, s)
                        && WrittenAt(capacity, evs, k, s) != MappedOf(At(capacity, evs, i), s)
  {
    hide Step, WrittenAt;
    FlightHistory(capacity, evs, i, j, s);
    Reachable(capacity, evs[..j]);
    assert JobOk(At(capacity, evs, j), s, At(capacity, evs, j).flights[s]);
  }

  // At instant `at` of the run the source had this date.
  ghost predicate Saw(capacity: nat, evs: seq<Event>, s: FileId, date: int, at: nat) {
    && at < |evs|
    && s in At(capacity, evs, at).sources && At(capacity, evs, at).sources[s].date == date
  }

  ghost predicate JobSaw(capacity: nat, evs: seq<Event>, s: FileId, job: Job) {
    && (DateOf(job.pc).Some? ==> Saw(capacity, evs, s, DateOf(job.pc).value, job.lookedUpAt))
    && (VerdictOf(job.pc).Some? && VerdictOf(job.pc).value.Ready? ==>
          Saw(capacity, evs, s, VerdictOf(job.pc).value.entry.date, job.lookedUpAt))
  }

  ghost predicate CallerSaw(capacity: nat, evs: seq<Event>, caller: Caller) {
    && (HasLookedUp(caller.pc) ==> Saw(capacity, evs, caller.source, caller.observed, caller.observedAt))
    && (caller.pc.Received? && caller.pc.verdict.Ready? ==>
          Saw(capacity, evs, caller.source, caller.pc.verdict.entry.date, caller.pc.lookedUpAt))
  }

  // Where a caller can be after one step.
  ghost predicate CallerStep(st: State, t: State, c: nat) {
    c in t.callers ==>
      var next := t.callers[c];
      if c !in st.callers then next.pc.LookUp?
      else
        var caller := st.callers[c];
        || next == caller
        || next.pc.Replied?
        || (next.source == caller.source && next.observed == caller.observed && next.observedAt == caller.observedAt
            && HasLookedUp(caller.pc) && !next.pc.Received?)
        || (caller.pc.LookUp? && next.pc.Authorize? && next.source == caller.source && next.observedAt == st.steps
            && next.source in st.sources && next.observed == st.sources[next.source].date)
        || (HasLookedUp(caller.pc) && caller.source in st.flights && st.flights[caller.source].pc.Publish?
            && var job := st.flights[caller.source];
               next == caller.(pc := Received(job.pc.verdict, job.lookedUpAt)))
  }

  lemma ServedCallerStep(st: State, u: State, caller: Caller, next: Caller, ok: bool, allowed: bool)
    requires u == st.(steps := st.steps + 1) && next == NextCaller(u, caller, ok, allowed)
    ensures || next == caller
            || next.pc.Replied?
            || (next.source == caller.source && next.observed == caller.observed && next.observedAt == caller.observedAt
                && HasLookedUp(caller.pc) && !next.pc.Received?)
            || (caller.pc.LookUp? && next.pc.Authorize? && next.source == caller.source && next.observedAt == st.steps
                && next.source in st.sources && next.observed == st.sources[next.source].date)
  {
  }

  lemma ServeCallers(capacity: nat, st: State, e: Event, c: nat)
    requires e.Serve? && Inv(st)
    ensures CallerStep(st, Step(capacity, st, e), c)
  {
    hide Step;
    if e.c in st.callers {
      assert CallerOk(st, st.callers[e.c]);
      ServeIs(capacity, st, e.c, e.ok, e.allowed);
      var u := st.(steps := st.steps + 1);
      ServedCallerStep(st, u, st.callers[e.c], NextCaller(u, st.callers[e.c], e.ok, e.allowed), e.ok, e.allowed);
    } else {
      ServeNobody(capacity, st, e.c, e.ok, e.allowed);
    }
  }

  lemma OutsideCallers(capacity: nat, st: State, e: Event, c: nat)
    requires !e.Serve? && !e.Work?
    ensures CallerStep(st, Step(capacity, st, e), c)
  {
  }

  lemma WorkCallers(capacity: nat, st: State, e: Event, c: nat)
    requires e.Work? && (e.s in st.flights ==> JobOk(st, e.s, st.flights[e.s]))
    ensures CallerStep(st, Step(capacity, st, e), c)
  {
    hide Step, StepJob;
    WorkStepIs(capacity, st, e);
    if e.s in st.flights {
      var u := st.(steps := st.steps + 1);
      if st.flights[e.s].pc.Publish? {
        PublishIs(capacity, u, e);
      } else if IsQuiet(st.flights[e.s].pc) {
        QuietIs(capacity, st, e.s, e.ok, e.applied, e.newId);
      } else {
        WorkIs(capacity, u, e.s, e.ok, e.applied, e.newId);
      }
    }
  }

  lemma PublishIs(capacity: nat, u: State, e: Event)
    requires u.steps > 0 && e.Work? && e.s in u.flights && u.flights[e.s].pc.Publish?
    ensures var t, job := StepJob(capacity, u, e.s, u.flights[e.s], e.ok, e.applied, e.newId), u.flights[e.s];
            t.callers.Keys == u.callers.Keys
            && forall c :: c in t.callers ==>
                 t.callers[c] == if u.callers[c].source == e.s && u.callers[c].pc.Waiting?
                                 then u.callers[c].(pc := Received(job.pc.verdict, job.lookedUpAt)) else u.callers[c]
  {
  }

  lemma CallerSteps(capacity: nat, st: State, e: Event, c: nat)
    requires Inv(st)
    ensures CallerStep(st, Step(capacity, st, e), c)
  {
    if e.Work? {
      assert e.s in st.flights ==> JobOk(st, e.s, st.flights[e.s]);
      WorkCallers(capacity, st, e, c);
    } else if e.Serve? {
      ServeCallers(capacity, st, e, c);
    } else {
      OutsideCallers(capacity, st, e, c);
    }
  }

  ghost predicate JobsSaw(capacity: nat, evs: seq<Event>) {
    var st := Exec(capacity, evs);
    forall s :: s in st.flights ==> JobSaw(capacity, evs, s, st.flights[s])
  }

  ghost predicate CallersSaw(capacity: nat, evs: seq<Event>) {
    var st := Exec(capacity, evs);
    forall c :: c in st.callers ==> CallerSaw(capacity, evs, st.callers[c])
  }

  lemma StillSaw(capacity: nat, past: seq<Event>, evs: seq<Event>, s: FileId, date: int, at: nat)
    requires |evs| == |past| + 1 && past == evs[..|past|] && Saw(capacity, past, s, date, at)
    ensures Saw(capacity, evs, s, date, at)
  {
    SamePast(capacity, evs, |past|, at);
  }

  lemma JobKeepsSeeing(capacity: nat, past: seq<Event>, evs: seq<Event>, st: State, e: Event, s: FileId,
                       job: Job, next: Job)
    requires |evs| == |past| + 1 && past == evs[..|past|] && st == Exec(capacity, past)
    requires JobSaw(capacity, past, s, job) && Carries(st, e, s, job, next)
    ensures JobSaw(capacity, evs, s, next)
  {
    assert At(capacity, evs, |past|) == st;
    if DateOf(job.pc).Some? {
      StillSaw(capacity, past, evs, s, DateOf(job.pc).value, job.lookedUpAt);
    }
    if VerdictOf(job.pc).Some? && VerdictOf(job.pc).value.Ready? {
      StillSaw(capacity, past, evs, s, VerdictOf(job.pc).value.entry.date, job.lookedUpAt);
    }
  }

  lemma JobsKeepSeeing(capacity: nat, past: seq<Event>, e: Event, s: FileId)
    requires JobsSaw(capacity, past) && s in Exec(capacity, past + [e]).flights
    ensures JobSaw(capacity, past + [e], s, Exec(capacity, past + [e]).flights[s])
  {
    hide Step, JobOk;
    var evs := past + [e];
    assert evs[..|past|] == past && evs[..|past| + 1] == evs;
    FlightNext(capacity, evs, |past|, s);
    var st, t := Exec(capacity, past), Exec(capacity, evs);
    assert FlightStep(st, t, e, s);
    if s in st.flights {
      JobKeepsSeeing(capacity, past, evs, st, e, s, st.flights[s], t.flights[s]);
    }
  }

  lemma CallersKeepSeeing(capacity: nat, past: seq<Event>, e: Event, c: nat)
    requires JobsSaw(capacity, past) && CallersSaw(capacity, past) && c in Exec(capacity, past + [e]).callers
    ensures CallerSaw(capacity, past + [e], Exec(capacity, past + [e]).callers[c])
  {
    hide Step, JobOk, StepJob;
    var evs := past + [e];
    var st := Exec(capacity, past);
    ExecAppend(capacity, past, e);
    Reachable(capacity, past);
    CallerSteps(capacity, st, e, c);
    assert evs[..|past|] == past && At(capacity, evs, |past|) == st;
    if c in st.callers {
      var caller := st.callers[c];
      assert CallerSaw(capacity, past, caller);
      if HasLookedUp(caller.pc) {
        StillSaw(capacity, past, evs, caller.source, caller.observed, caller.observedAt);
      }
      if caller.pc.Received? && caller.pc.verdict.Ready? {
        StillSaw(capacity, past, evs, caller.source, caller.pc.verdict.entry.date, caller.pc.lookedUpAt);
      }
      if caller.source in st.flights {
        var job := st.flights[caller.source];
        assert JobSaw(capacity, past, caller.source, job);
        if job.pc.Publish? && job.pc.verdict.Ready? {
          StillSaw(capacity, past, evs, caller.source, job.pc.verdict.entry.date, job.lookedUpAt);
        }
      }
    }
  }

  lemma {:induction false} AllSaw(capacity: nat, evs: seq<Event>)
    ensures JobsSaw(capacity, evs) && CallersSaw(capacity, evs)
  {
    if evs != [] {
      var past, e := evs[..|evs| - 1], evs[|evs| - 1];
      AllSaw(capacity, past);
      assert evs == past + [e];
      forall s | s in Exec(capacity, evs).flights ensures JobSaw(capacity, evs, s, Exec(capacity, evs).flights[s]) {
        JobsKeepSeeing(capacity, past, e, s);
      }
      forall c | c in Exec(capacity, evs).callers ensures CallerSaw(capacity, evs, Exec(capacity, evs).callers[c]) {
        CallersKeepSeeing(capacity, past, e, c);
      }
    }
  }

  // Event k is a save of s.
  ghost predicate SavedAt(capacity: nat, evs: seq<Event>, k: nat, s: FileId)
    requires k < |evs|
  {
    var st := At(capacity, evs, k);
    evs[k].Save? && evs[k].s == s && s in st.sources && st.sources[s].date < evs[k].date
  }

  lemma SourceStep(capacity: nat, st: State, e: Event, s: FileId)
    requires s in st.known && s in Step(capacity, st, e).sources
    requires !e.Work?
    ensures s in st.sources
    ensures Step(capacity, st, e).sources[s].date
         == if e.Save? && e.s == s && st.sources[s].date < e.date then e.date else st.sources[s].date
  {
    if e.Serve? {
    } else {
    }
  }

  lemma WorkOnSources(capacity: nat, st: State, e: Event)
    requires e.Work? && (e.s in st.flights ==> JobOk(st, e.s, st.flights[e.s]))
    ensures Step(capacity, st, e).sources == st.sources && Step(capacity, st, e).known == st.known
  {
    hide Step, StepStore, NextJob;
    WorkStepIs(capacity, st, e);
    if e.s in st.flights {
      var u := st.(steps := st.steps + 1);
      if IsQuiet(st.flights[e.s].pc) {
        QuietIs(capacity, st, e.s, e.ok, e.applied, e.newId);
      } else if !st.flights[e.s].pc.Publish? {
        WorkIs(capacity, u, e.s, e.ok, e.applied, e.newId);
      }
    }
  }

  lemma KnownGrows(capacity: nat, st: State, e: Event)
    requires !e.Work?
    ensures st.known <= Step(capacity, st, e).known
  {
    if e.Serve? {
    } else {
    }
  }

  lemma SourceNext(capacity: nat, evs: seq<Event>, i: nat, s: FileId)
    requires i < |evs| && s in At(capacity, evs, i).known
    ensures s in At(capacity, evs, i + 1).known
    ensures s in At(capacity, evs, i + 1).sources ==>
              && s in At(capacity, evs, i).sources
              && At(capacity, evs, i).sources[s].date <= At(capacity, evs, i + 1).sources[s].date
              && (SavedAt(capacity, evs, i, s)
                  <==> At(capacity, evs, i).sources[s].date < At(capacity, evs, i + 1).sources[s].date)
  {
    NextState(capacity, evs, i);
    WorkerOk(capacity, evs[..i], evs[i]);
    var st, e := At(capacity, evs, i), evs[i];
    if e.Work? {
      WorkOnSources(capacity, st, e);
    } else {
      KnownGrows(capacity, st, e);
      if s in At(capacity, evs, i + 1).sources {
        SourceStep(capacity, st, e, s);
      }
    }
  }

  // The date of a source grows by its saves only.
  lemma {:induction false} DatesGrowBySaves(capacity: nat, evs: seq<Event>, a: nat, b: nat, s: FileId)
    requires a <= b <= |evs|
    requires s in At(capacity, evs, a).known && s in At(capacity, evs, b).sources
    ensures s in At(capacity, evs, a).sources
    ensures At(capacity, evs, a).sources[s].date <= At(capacity, evs, b).sources[s].date
    ensures At(capacity, evs, a).sources[s].date < At(capacity, evs, b).sources[s].date
       <==> exists k :: a <= k < b && SavedAt(capacity, evs, k, s)
    decreases b - a
  {
    hide Step, At, SavedAt;
    if a < b {
      KnownSince(capacity, evs, a, b - 1, s);
      SourceNext(capacity, evs, b - 1, s);
      DatesGrowBySaves(capacity, evs, a, b - 1, s);
    }
  }

  lemma KnownSince(capacity: nat, evs: seq<Event>, a: nat, b: nat, s: FileId)
    requires a <= b <= |evs| && s in At(capacity, evs, a).known
    ensures s in At(capacity, evs, b).known
    decreases b - a
  {
    hide Step, At, SavedAt;
    if a < b {
      KnownSince(capacity, evs, a, b - 1, s);
      SourceNext(capacity, evs, b - 1, s);
    }
  }

  /** A request that started a flight is never refused as stale. One that joined a flight
      which succeeds is refused, when it goes on to read the verdict, exactly if a save fell
      between the instant the job looked the source up again and the later instant the
      request had looked it up. It may also be cancelled instead. */
  lemma {:induction false} StaleIffSavedInBetween(capacity: nat, evs: seq<Event>, c: nat)
    requires c in Exec(capacity, evs).callers
    requires var pc := Exec(capacity, evs).callers[c].pc; pc.Received? && pc.verdict.Ready?
    ensures var caller := Exec(capacity, evs).callers[c];
            var a, b := caller.pc.lookedUpAt, caller.observedAt;
            && a < |evs| && b < |evs|
            && (Step(capacity, Exec(capacity, evs), Serve(c, true, true)).callers[c].pc
                  == Replied(Refused(StaleSharedRender))
                <==> a < b && exists k :: a <= k < b && SavedAt(capacity, evs, k, caller.source))
            && (caller.leader ==> caller.pc.verdict.entry.date >= caller.observed)
    ensures c in Step(capacity, Exec(capacity, evs), GiveUp(c)).callers
    ensures Step(capacity, Exec(capacity, evs), GiveUp(c)).callers[c].pc == Replied(Refused(Cancelled))
  {
    hide SavedAt;
    var st := Exec(capacity, evs);
    var caller := st.callers[c];
    AllSaw(capacity, evs);
    assert CallerSaw(capacity, evs, caller);
    Reachable(capacity, evs);
    assert CallerOk(st, caller);
    ServeIs(capacity, st, c, true, true);
    GiveUpIs(capacity, st, c);
    var a, b, s := caller.pc.lookedUpAt, caller.observedAt, caller.source;
    Reachable(capacity, evs[..a]);
    Reachable(capacity, evs[..b]);
    if a <= b {
      DatesGrowBySaves(capacity, evs, a, b, s);
    } else {
      DatesGrowBySaves(capacity, evs, b, a, s);
    }
  }

  /** No request that started a flight ever ends with that refusal. */
  lemma {:induction false} LeadersAreNeverStale(capacity: nat, evs: seq<Event>, c: nat)
    requires c in Exec(capacity, evs).callers && Exec(capacity, evs).callers[c].leader
    ensures Exec(capacity, evs).callers[c].pc != Replied(Refused(StaleSharedRender))
  {
    Reachable(capacity, evs);
    assert CallerOk(Exec(capacity, evs), Exec(capacity, evs).callers[c]);
  }
}
