/** The two semaphores of the render queue, conserved over every run. */
module PreviewAdmission {
  import opened PreviewProtocol

  predicate HoldsSlot(pc: JobPc) {
    !pc.Admit? && !pc.Publish?
  }

  predicate HoldsPermit(pc: JobPc) {
    HoldsSlot(pc) && !pc.Activate? && !pc.FreeSlot?
  }

  function SlotHolders(flights: map<FileId, Job>): set<FileId> {
    set s | s in flights && HoldsSlot(flights[s].pc)
  }

  function PermitHolders(flights: map<FileId, Job>): set<FileId> {
    set s | s in flights && HoldsPermit(flights[s].pc)
  }

  ghost predicate Conserved(capacity: nat, st: State) {
    && st.slots == |SlotHolders(st.flights)| <= MAX_ACTIVE_RENDERS + capacity
    && st.active == |PermitHolders(st.flights)| <= MAX_ACTIVE_RENDERS
  }

  function One(b: bool): int {
    if b then 1 else 0
  }

  // Counting after the job of s has moved.
  lemma SetMove(before: set<FileId>, after: set<FileId>, s: FileId)
    requires before - {s} == after - {s}
    ensures |after| == |before| + One(s in after) - One(s in before)
  {
    var others := before - {s};
    assert before == others + (if s in before then {s} else {});
    assert after == others + (if s in after then {s} else {});
  }

  lemma MoveCounts(flights: map<FileId, Job>, s: FileId, next: Job)
    requires s in flights
    ensures |SlotHolders(flights[s := next])|
         == |SlotHolders(flights)| + One(HoldsSlot(next.pc)) - One(HoldsSlot(flights[s].pc))
    ensures |PermitHolders(flights[s := next])|
         == |PermitHolders(flights)| + One(HoldsPermit(next.pc)) - One(HoldsPermit(flights[s].pc))
  {
    SetMove(SlotHolders(flights), SlotHolders(flights[s := next]), s);
    SetMove(PermitHolders(flights), PermitHolders(flights[s := next]), s);
  }

  // A flight that takes off or lands holds nothing.
  lemma IdleCounts(flights: map<FileId, Job>, s: FileId, job: Job)
    requires !HoldsSlot(job.pc) && s !in flights
    ensures SlotHolders(flights[s := job]) == SlotHolders(flights)
    ensures PermitHolders(flights[s := job]) == PermitHolders(flights)
  {
  }

  lemma LandingCounts(flights: map<FileId, Job>, s: FileId)
    requires s in flights && !HoldsSlot(flights[s].pc)
    ensures SlotHolders(flights - {s}) == SlotHolders(flights)
    ensures PermitHolders(flights - {s}) == PermitHolders(flights)
  {
  }

  lemma QuietConserves(capacity: nat, t: State, s: FileId, ok: bool)
    requires Conserved(capacity, t) && t.steps > 0 && s in t.flights
    requires var pc := t.flights[s].pc; !pc.Store? && !pc.Commit? && !pc.Discard? && !pc.Publish?
    ensures Conserved(capacity, StepQuiet(capacity, t, s, t.flights[s], ok))
  {
    MoveCounts(t.flights, s, NextJob(capacity, t, s, t.flights[s], ok));
  }

  // The other steps of a job keep its slot and its permit, except that landing needs neither.
  lemma TableStepsHold(capacity: nat, t: State, s: FileId, ok: bool, applied: bool, newId: FileId)
    requires t.steps > 0 && s in t.flights
    requires var pc := t.flights[s].pc; pc.Store? || pc.Commit? || pc.Discard?
    ensures var r := StepJob(capacity, t, s, t.flights[s], ok, applied, newId);
            && r.slots == t.slots && r.active == t.active
            && s in r.flights && r.flights == t.flights[s := r.flights[s]] && HoldsPermit(r.flights[s].pc)
  {
    if t.flights[s].pc.Store? {
      StoreHolds(t, s, t.flights[s], ok, applied, newId);
    }
  }

  lemma StoreHolds(t: State, s: FileId, job: Job, ok: bool, applied: bool, newId: FileId)
    requires job.pc.Store? && s in t.flights && t.flights[s] == job
    ensures var r := StepStore(t, s, job, ok, applied, newId);
            && r.slots == t.slots && r.active == t.active
            && s in r.flights && r.flights == t.flights[s := r.flights[s]] && HoldsPermit(r.flights[s].pc)
  {
    if job.pc.target.Some? {
      StoreInPlaceHolds(t, s, job, ok, applied, newId);
    } else {
      StoreNewHolds(t, s, job, ok, applied, newId);
    }
  }

  lemma StoreInPlaceHolds(t: State, s: FileId, job: Job, ok: bool, applied: bool, newId: FileId)
    requires job.pc.Store? && job.pc.target.Some? && s in t.flights && t.flights[s] == job
    ensures var r := StepStore(t, s, job, ok, applied, newId);
            && r.slots == t.slots && r.active == t.active
            && s in r.flights && r.flights == t.flights[s := r.flights[s]] && HoldsPermit(r.flights[s].pc)
  {
  }

  lemma StoreNewHolds(t: State, s: FileId, job: Job, ok: bool, applied: bool, newId: FileId)
    requires job.pc.Store? && job.pc.target.None? && s in t.flights && t.flights[s] == job
    ensures var r := StepStore(t, s, job, ok, applied, newId);
            && r.slots == t.slots && r.active == t.active
            && s in r.flights && r.flights == t.flights[s := r.flights[s]] && HoldsPermit(r.flights[s].pc)
  {
  }

  lemma WorkConserves(capacity: nat, t: State, s: FileId, ok: bool, applied: bool, newId: FileId)
    requires Conserved(capacity, t) && t.steps > 0 && s in t.flights
    ensures Conserved(capacity, StepJob(capacity, t, s, t.flights[s], ok, applied, newId))
  {
    var pc := t.flights[s].pc;
    if pc.Store? || pc.Commit? || pc.Discard? {
      var r := StepJob(capacity, t, s, t.flights[s], ok, applied, newId);
      TableStepsHold(capacity, t, s, ok, applied, newId);
      MoveCounts(t.flights, s, r.flights[s]);
    } else if pc.Publish? {
      LandingCounts(t.flights, s);
    } else {
      QuietConserves(capacity, t, s, ok);
    }
  }

  lemma ServeConserves(capacity: nat, t: State, c: nat, caller: Caller, ok: bool, allowed: bool)
    requires Conserved(capacity, t) && t.steps > 0
    ensures Conserved(capacity, StepCaller(t, c, caller, ok, allowed))
  {
    if caller.pc.Join? && caller.source !in t.flights {
      IdleCounts(t.flights, caller.source, Job(Admit, 0, 0, 0, 0, MappedOf(t, caller.source), false));
    }
  }

  lemma OthersConserve(capacity: nat, st: State, e: Event)
    requires !e.Serve? && !e.Work?
    ensures var t := Step(capacity, st, e);
            t.flights == st.flights && t.slots == st.slots && t.active == st.active
  {
  }

  lemma StepConserves(capacity: nat, st: State, e: Event)
    requires Conserved(capacity, st)
    ensures Conserved(capacity, Step(capacity, st, e))
  {
    var u := st.(steps := st.steps + 1);
    if e.Serve? {
      if e.c in st.callers {
        ServeConserves(capacity, u, e.c, st.callers[e.c], e.ok, e.allowed);
      }
    } else if e.Work? {
      if e.s in st.flights {
        WorkConserves(capacity, u, e.s, e.ok, e.applied, e.newId);
      }
    } else {
      OthersConserve(capacity, st, e);
    }
  }

  lemma {:induction false} AlwaysConserved(capacity: nat, evs: seq<Event>)
    ensures Conserved(capacity, Exec(capacity, evs))
  {
    if evs == [] {
      assert SlotHolders(map[]) == {} && PermitHolders(map[]) == {};
    } else {
      AlwaysConserved(capacity, evs[..|evs| - 1]);
      StepConserves(capacity, Exec(capacity, evs[..|evs| - 1]), evs[|evs| - 1]);
    }
  }

  /** On every run the slots taken are those of the admitted, unfinished jobs and never
      more than the queue has; the permits taken are those of the active ones, never more
      than two; whoever renders has a permit; and once no job is left, by whatever exits,
      both semaphores are free again. */
  lemma {:induction false} AdmissionIsConserved(capacity: nat, evs: seq<Event>)
    ensures var st := Exec(capacity, evs);
            && st.slots == |SlotHolders(st.flights)| <= 2 + capacity
            && st.active == |PermitHolders(st.flights)| <= 2
            && PermitHolders(st.flights) <= SlotHolders(st.flights)
            && (forall s :: s in st.flights && st.flights[s].pc.Render? ==> s in PermitHolders(st.flights))
            && (st.flights == map[] ==> st.slots == 0 && st.active == 0)
  {
    AlwaysConserved(capacity, evs);
    if Exec(capacity, evs).flights == map[] {
      assert SlotHolders(map[]) == {} && PermitHolders(map[]) == {};
    }
  }
}
