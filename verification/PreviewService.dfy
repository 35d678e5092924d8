/** PreviewService as it is written: Resolve, renderAndStore, writeTarget, commitRefresh
    and commitMapping, with everyone else running between their calls to other systems.
    Every execution of these methods is a run of the state machine of PreviewProtocol. */
module PreviewServiceModel {
  import opened Wrappers
  import opened PreviewProtocol
  import PreviewTheorems

  // A step of one job leaves every other job where it is.
  lemma StoreElsewhere(t: State, s: FileId, job: Job, ok: bool, applied: bool, newId: FileId, z: FileId)
    requires job.pc.Store? && z != s
    ensures var r := StepStore(t, s, job, ok, applied, newId);
            && (z in r.flights <==> z in t.flights) && (z in r.flights ==> r.flights[z] == t.flights[z])
            && r.callers == t.callers
  {
    if job.pc.target.Some? {
    } else {
    }
  }

  ghost predicate Elsewhere(t: State, r: State, z: FileId) {
    (z in r.flights <==> z in t.flights) && (z in r.flights ==> r.flights[z] == t.flights[z])
  }

  lemma TablesElsewhere(capacity: nat, t: State, s: FileId, ok: bool, applied: bool, newId: FileId, z: FileId)
    requires t.steps > 0 && s in t.flights && z != s
    requires var pc := t.flights[s].pc; pc.Commit? || pc.Discard? || pc.Publish?
    ensures Elsewhere(t, StepJob(capacity, t, s, t.flights[s], ok, applied, newId), z)
  {
  }

  lemma QuietElsewhere(capacity: nat, t: State, s: FileId, ok: bool, applied: bool, newId: FileId, z: FileId)
    requires t.steps > 0 && s in t.flights && z != s
    requires var pc := t.flights[s].pc; !pc.Store? && !pc.Commit? && !pc.Discard? && !pc.Publish?
    ensures Elsewhere(t, StepJob(capacity, t, s, t.flights[s], ok, applied, newId), z)
  {
    assert StepJob(capacity, t, s, t.flights[s], ok, applied, newId) == StepQuiet(capacity, t, s, t.flights[s], ok);
  }

  lemma WorkElsewhere(capacity: nat, st: State, e: Event, z: FileId)
    requires e.Work? && z != e.s
    ensures Elsewhere(st, Step(capacity, st, e), z)
  {
    var u := st.(steps := st.steps + 1);
    if e.s in st.flights {
      var pc := st.flights[e.s].pc;
      if pc.Store? {
        StoreElsewhere(u, e.s, st.flights[e.s], e.ok, e.applied, e.newId, z);
      } else if pc.Commit? || pc.Discard? || pc.Publish? {
        TablesElsewhere(capacity, u, e.s, e.ok, e.applied, e.newId, z);
      } else {
        QuietElsewhere(capacity, u, e.s, e.ok, e.applied, e.newId, z);
      }
    }
  }

  lemma ServeElsewhere(capacity: nat, st: State, e: Event, z: FileId)
    requires !e.Work? && z in st.flights
    ensures Elsewhere(st, Step(capacity, st, e), z)
  {
    if e.Serve? {
    } else {
    }
  }

  lemma NotMyJob(capacity: nat, st: State, e: Event, s: FileId)
    requires s in st.flights && !(e.Work? && e.s == s)
    ensures Elsewhere(st, Step(capacity, st, e), s)
  {
    if e.Work? {
      WorkElsewhere(capacity, st, e, s);
    } else {
      ServeElsewhere(capacity, st, e, s);
    }
  }

  // A step that is not one of the job of s leaves the mapping of s alone.
  lemma MappingElsewhere(capacity: nat, st: State, e: Event, s: FileId)
    requires !IsStepOf(s, e)
    ensures MappedOf(Step(capacity, st, e), s) == MappedOf(st, s)
  {
    hide Step;
    PreviewTheorems.MappingOnlyByCommit(capacity, st, e);
  }

  predicate IsStepOf(s: FileId, e: Event) {
    e.Work? && e.s == s
  }

  // The job of s has not moved since the run had n events.
  ghost predicate Rests(s: FileId, evs: seq<Event>, n: nat) {
    forall i :: n <= i < |evs| ==> !IsStepOf(s, evs[i])
  }

  // The caller is where it was, or has received the verdict it was waiting for.
  ghost predicate Undisturbed(before: Caller, after: Caller) {
    || after == before
    || (before.pc.Waiting? && after.pc.Received? && after == before.(pc := after.pc))
  }

  lemma WorkOnCaller(capacity: nat, t: State, s: FileId, ok: bool, applied: bool, newId: FileId, c: nat)
    requires t.steps > 0 && s in t.flights && c in t.callers
    ensures var r := StepJob(capacity, t, s, t.flights[s], ok, applied, newId);
            c in r.callers && Undisturbed(t.callers[c], r.callers[c])
  {
    hide StepStore, NextJob, SlotsTaken, PermitsTaken;
    if t.flights[s].pc.Store? {
      StoreElsewhere(t, s, t.flights[s], ok, applied, newId, s + "?");
    }
  }

  lemma NotMyServe(capacity: nat, st: State, e: Event, c: nat)
    requires !e.Work? && c in st.callers && !((e.Serve? || e.Arrive? || e.GiveUp?) && e.c == c)
    ensures var t := Step(capacity, st, e); c in t.callers && t.callers[c] == st.callers[c]
  {
    hide StepJob, NextCaller;
    if e.Serve? {
    } else {
    }
  }

  lemma NotMyCall(capacity: nat, st: State, e: Event, c: nat)
    requires c in st.callers && !((e.Serve? || e.Arrive? || e.GiveUp?) && e.c == c)
    ensures var t := Step(capacity, st, e); c in t.callers && Undisturbed(st.callers[c], t.callers[c])
  {
    hide Step, StepJob;
    if !e.Work? {
      NotMyServe(capacity, st, e, c);
    } else {
      WorkStepIs(capacity, st, e);
      if e.s in st.flights {
        WorkOnCaller(capacity, st.(steps := st.steps + 1), e.s, e.ok, e.applied, e.newId, c);
      }
    }
  }

  lemma NotWaiting(before: Caller, after: Caller)
    requires Undisturbed(before, after) && !before.pc.Waiting?
    ensures after == before
  {
  }

  // Where the lookup of its source leaves a request.
  ghost function AfterLookUp(me: Caller, src: Option<Source>, failed: bool, at: nat): (r: Caller)
    ensures !r.pc.Waiting?
  {
    if failed then Reply(me, Refused(Upstream))
    else if src == None then Reply(me, Refused(NotFound))
    else me.(pc := Authorize(src.value), observed := src.value.date, observedAt := at)
  }

  lemma LookUpIs(u: State, me: Caller, ok: bool)
    requires u.steps > 0 && me.pc == LookUp
    ensures NextCaller(u, me, ok, true)
         == AfterLookUp(me, if me.source in u.sources then Some(u.sources[me.source]) else None, !ok, u.steps - 1)
  {
  }

  datatype ReadResult = Content | Missing | Error

  class PreviewService {
    const capacity: nat
    // The tables of file-service and of this service, the flights, the requests being
    // served and the two semaphores: all that the goroutines share.
    var st: State
    ghost var events: seq<Event>

    ghost predicate Valid()
      reads this
    {
      st == Exec(capacity, events)
    }

    constructor (waitingCapacity: nat)
      ensures Valid() && capacity == waitingCapacity && events == []
    {
      capacity, st, events := waitingCapacity, Init(), [];
    }

    ghost predicate JobAt(s: FileId, pc: JobPc)
      reads this
    {
      Valid() && s in st.flights && st.flights[s].pc == pc
    }

    method Enter(e: Event)
      requires Valid()
      modifies this
      ensures Valid() && st == Step(capacity, old(st), e) && events == old(events) + [e]
    {
      hide Exec;
      st := Step(capacity, st, e);
      ExecAppend(capacity, events, e);
      events := events + [e];
    }

    // Notes in the run that what was just done to the tables, from `was`, is event e.
    method Record(was: State, e: Event)
      requires was == Exec(capacity, events)
      requires var next := Step(capacity, was, e);
               st == was.(previews := next.previews, mapping := next.mapping,
                          slots := next.slots, active := next.active)
      modifies this
      ensures Valid() && st == Step(capacity, was, e) && events == old(events) + [e]
    {
      hide Exec;
      st := Step(capacity, was, e);
      ExecAppend(capacity, events, e);
      events := events + [e];
    }

    /** Everyone but the job of s: other jobs, callers, saves, losses. */
    method OtherThanJob(s: FileId)
      requires Valid() && s in st.flights
      modifies this
      ensures Valid() && old(events) <= events && s in st.flights && st.flights[s] == old(st.flights[s])
      ensures Rests(s, events, |old(events)|) && MappedOf(st, s) == old(MappedOf(st, s))
    {
      hide Exec;
      var schedule: seq<Event> := *;
      for i := 0 to |schedule|
        invariant Valid() && old(events) <= events && s in st.flights && st.flights[s] == old(st.flights[s])
        invariant Rests(s, events, |old(events)|) && MappedOf(st, s) == old(MappedOf(st, s))
      {
        var e := schedule[i];
        if !(e.Work? && e.s == s) {
          NotMyJob(capacity, st, e, s);
          MappingElsewhere(capacity, st, e, s);
          Enter(e);
        }
      }
    }

    /** Everyone but caller c, the job it may be waiting for included. */
    method OtherThanCaller(c: nat)
      requires Valid() && c in st.callers
      modifies this
      ensures Valid() && old(events) <= events && c in st.callers
      ensures Undisturbed(old(st.callers[c]), st.callers[c])
    {
      hide Exec;
      var schedule: seq<Event> := *;
      for i := 0 to |schedule|
        invariant Valid() && old(events) <= events && c in st.callers
        invariant Undisturbed(old(st.callers[c]), st.callers[c])
      {
        var e := schedule[i];
        if !((e.Serve? || e.Arrive? || e.GiveUp?) && e.c == c) {
          NotMyCall(capacity, st, e, c);
          Enter(e);
        }
      }
    }

    method TryAcquireSlot(s: FileId) returns (admitted: bool)
      requires JobAt(s, Admit)
      modifies this
      ensures old(events) <= events
      ensures JobAt(s, if admitted then Activate else Publish(Fault(AdmissionFull)))
    {
      hide Exec;
      OtherThanJob(s);
      var was := st;
      admitted := st.slots < MAX_ACTIVE_RENDERS + capacity;
      if admitted {
        st := st.(slots := st.slots + 1);
      }
      Record(was, Work(s, true, false, ""));
      OtherThanJob(s);
    }

    // Waits for a permit until one is free or the render times out.
    method AcquireActive(s: FileId) returns (acquired: bool)
      requires JobAt(s, Activate)
      modifies this
      ensures old(events) <= events
      ensures JobAt(s, if acquired then LookUpAgain else FreeSlot(Fault(AdmissionFull)))
    {
      hide Exec;
      OtherThanJob(s);
      var timedOut: bool := *;
      var was := st;
      acquired := !timedOut && st.active < MAX_ACTIVE_RENDERS;
      if acquired {
        st := st.(active := st.active + 1);
      }
      Record(was, Work(s, acquired, false, ""));
      OtherThanJob(s);
    }

    method ReleaseActive(s: FileId, verdict: Verdict)
      requires JobAt(s, FreeActive(verdict))
      modifies this
      ensures old(events) <= events && JobAt(s, FreeSlot(verdict))
    {
      hide Exec;
      var was := st;
      st := st.(active := st.active - 1);
      Record(was, Work(s, true, false, ""));
      OtherThanJob(s);
    }

    method ReleaseSlot(s: FileId, verdict: Verdict)
      requires JobAt(s, FreeSlot(verdict))
      modifies this
      ensures old(events) <= events && JobAt(s, Publish(verdict))
    {
      hide Exec;
      var was := st;
      st := st.(slots := st.slots - 1);
      Record(was, Work(s, true, false, ""));
      OtherThanJob(s);
    }

    method FindSource(s: FileId) returns (src: Option<Source>, failed: bool)
      requires JobAt(s, LookUpAgain)
      modifies this
      ensures old(events) <= events
      ensures JobAt(s, if failed then FreeActive(Fault(Upstream))
                       else if src == None then FreeActive(Fault(NotFound)) else FindTarget(src.value.date))
    {
      hide Exec;
      failed := *;
      src := if s in st.sources then Some(st.sources[s]) else None;
      Record(st, Work(s, !failed, false, ""));
      OtherThanJob(s);
    }

    method FindMapping(s: FileId, date: int) returns (mapped: Option<Entry>, failed: bool)
      requires JobAt(s, FindTarget(date))
      modifies this
      ensures old(events) <= events
      ensures JobAt(s, if failed then FreeActive(Fault(Upstream))
                       else if mapped == None then PreviewProtocol.ReadSource(date, None)
                       else if mapped.value.date == date then Recheck(date, mapped.value)
                       else AskMetadata(date, mapped.value))
    {
      hide Exec;
      failed := *;
      mapped := MappedOf(st, s);
      Record(st, Work(s, !failed, false, ""));
      OtherThanJob(s);
    }

    method ReadPreview(s: FileId, date: int, mapped: Entry) returns (res: ReadResult)
      requires JobAt(s, Recheck(date, mapped))
      modifies this
      ensures old(events) <= events
      ensures JobAt(s, match res
                       case Content => FreeActive(Ready(mapped))
                       case Missing => AskMetadata(date, mapped)
                       case Error => FreeActive(Fault(RenderFailed)))
    {
      hide Exec;
      var failed: bool := *;
      res := if failed then Error else if HasPixels(st, mapped.previewId) then Content else Missing;
      Record(st, Work(s, !failed, false, ""));
      OtherThanJob(s);
    }

    method FindPreview(s: FileId, date: int, mapped: Entry) returns (found: bool, failed: bool)
      requires JobAt(s, AskMetadata(date, mapped))
      modifies this
      ensures old(events) <= events
      ensures JobAt(s, if failed then FreeActive(Fault(RenderFailed))
                       else PreviewProtocol.ReadSource(date, if found then Some(mapped.previewId) else None))
    {
      hide Exec;
      failed := *;
      found := mapped.previewId in st.previews;
      Record(st, Work(s, !failed, false, ""));
      OtherThanJob(s);
    }

    /** writeTarget: a current entry to reuse, or the preview file to replace, or neither
        when a file must be created. */
    method WriteTarget(s: FileId, date: int)
      returns (reuse: Option<Entry>, refreshID: Option<FileId>, err: Option<PreviewProtocol.Error>)
      requires JobAt(s, FindTarget(date))
      modifies this
      ensures old(events) <= events
      ensures JobAt(s, if err.Some? then FreeActive(Fault(err.value))
                       else if reuse.Some? then FreeActive(Ready(reuse.value))
                       else PreviewProtocol.ReadSource(date, refreshID))
    {
      hide Exec;
      var mapped, failed := FindMapping(s, date);
      if failed {
        return None, None, Some(Upstream);
      }
      if mapped == None {
        return None, None, None;
      }
      if mapped.value.date == date {
        var res := ReadPreview(s, date, mapped.value);
        if res.Content? {
          return mapped, None, None;
        }
        if res.Error? {
          return None, None, Some(RenderFailed);
        }
      }
      var found, merr := FindPreview(s, date, mapped.value);
      if merr {
        return None, None, Some(RenderFailed);
      }
      if !found {
        return None, None, None;
      }
      return None, Some(mapped.value.previewId), None;
    }

    method ReadSource(s: FileId, date: int, target: Option<FileId>) returns (version: Option<int>)
      requires JobAt(s, PreviewProtocol.ReadSource(date, target))
      modifies this
      ensures old(events) <= events
      ensures JobAt(s, if version == None then FreeActive(Fault(RenderFailed))
                       else PreviewProtocol.Render(date, target, version.value))
    {
      hide Exec;
      var failed: bool := *;
      version := if failed || s !in st.sources then None else Some(st.sources[s].date);
      Record(st, Work(s, !failed, false, ""));
      OtherThanJob(s);
    }

    method Render(s: FileId, date: int, target: Option<FileId>, version: int) returns (png: bool)
      requires JobAt(s, PreviewProtocol.Render(date, target, version))
      modifies this
      ensures old(events) <= events
      ensures JobAt(s, if png then Store(date, target, version) else FreeActive(Fault(RenderFailed)))
    {
      hide Exec;
      png := *;
      Record(st, Work(s, png, false, ""));
      OtherThanJob(s);
    }

    method WriteFile(s: FileId, date: int, refreshID: FileId, version: int) returns (ok: bool)
      requires JobAt(s, Store(date, Some(refreshID), version))
      modifies this
      ensures old(events) <= events
      ensures JobAt(s, if ok then Commit(date, refreshID, false) else FreeActive(Fault(RenderFailed)))
    {
      hide Exec;
      var reported: bool := *;
      var applied: bool := *;
      var was := st;
      ok := reported && refreshID in st.previews;
      if refreshID in st.previews && (reported || applied) {
        st := st.(previews := st.previews[refreshID := Some(Pixels(s, version))]);
      }
      Record(was, Work(s, reported, applied, ""));
      OtherThanJob(s);
    }

    // File-service picks an ID it has never used.
    method CreatePreviewFile(s: FileId, date: int, version: int) returns (previewID: Option<FileId>)
      requires JobAt(s, Store(date, None, version))
      modifies this
      ensures old(events) <= events
      ensures JobAt(s, if previewID.Some? then Commit(date, previewID.value, true) else FreeActive(Fault(RenderFailed)))
    {
      hide Exec;
      var id: FileId := *;
      var reported: bool := *;
      var applied: bool := *;
      var was := st;
      if IsFresh(st, id) && (reported || applied) {
        st := st.(previews := st.previews[id := Some(Pixels(s, version))]);
        previewID := if reported then Some(id) else None;
        Record(was, Work(s, reported, applied, id));
      } else {
        previewID := None;
        Record(was, Work(s, false, false, id));
      }
      OtherThanJob(s);
    }

    // The update, reported as done or failed; if failed, it may have happened all the same.
    method Upsert(s: FileId, entry: Entry, created: bool) returns (ok: bool, ghost applied: bool)
      requires JobAt(s, Commit(entry.date, entry.previewId, created))
      modifies this
      ensures old(events) < events && events[|old(events)|] == Work(s, ok, applied, "")
      ensures Rests(s, events, |old(events)| + 1)
      ensures MappedOf(st, s) == if ok || applied then Some(entry) else old(MappedOf(st, s))
      ensures JobAt(s, if ok then FreeActive(Ready(entry))
                       else if created then Discard(entry.previewId) else FreeActive(Fault(RenderFailed)))
    {
      hide Exec;
      ok := *;
      var happened: bool := *;
      applied := happened;
      var was := st;
      if ok || happened {
        st := st.(mapping := st.mapping[s := entry]);
      }
      Record(was, Work(s, ok, happened, ""));
      OtherThanJob(s);
    }

    method DeletePreviewFile(s: FileId, previewID: FileId)
      requires JobAt(s, Discard(previewID))
      modifies this
      ensures old(events) < events && IsStepOf(s, events[|old(events)|]) && Rests(s, events, |old(events)| + 1)
      ensures MappedOf(st, s) == old(MappedOf(st, s))
      ensures JobAt(s, FreeActive(Fault(RenderFailed)))
    {
      hide Exec;
      var ok: bool := *;
      var applied: bool := *;
      var was := st;
      if ok || applied {
        st := st.(previews := st.previews - {previewID});
      }
      Record(was, Work(s, ok, applied, ""));
      OtherThanJob(s);
    }

    // The job's outcome and what it has left of the mapping: the new entry if the update
    // succeeded, and the new entry or the one before if it is reported as failed.
    ghost predicate Committed(s: FileId, entry: Entry, before: Option<Entry>, verdict: Verdict)
      reads this
    {
      match verdict
      case Ready(e) => e == entry && MappedOf(st, s) == Some(entry)
      case Fault(error) => error == RenderFailed && (MappedOf(st, s) == Some(entry) || MappedOf(st, s) == before)
    }

    /** commitRefresh: the update is the job's one step; whatever becomes of it, no discard follows. */
    method CommitRefresh(s: FileId, previewID: FileId, renderedDate: int) returns (verdict: Verdict)
      requires JobAt(s, Commit(renderedDate, previewID, false))
      modifies this
      ensures old(events) < events && IsStepOf(s, events[|old(events)|]) && Rests(s, events, |old(events)| + 1)
      ensures verdict.Ready? <==> events[|old(events)|].ok
      ensures Committed(s, Entry(previewID, renderedDate), old(MappedOf(st, s)), verdict)
      ensures JobAt(s, FreeActive(verdict))
    {
      hide Exec;
      var entry := Entry(previewID, renderedDate);
      var ok, applied := Upsert(s, entry, false);
      return if ok then Ready(entry) else Fault(RenderFailed);
    }

    /** commitMapping: the update is the job's only step if it succeeds; if it does not, one
        more follows, which discards the new file. */
    method CommitMapping(s: FileId, previewID: FileId, renderedDate: int) returns (verdict: Verdict, ghost discard: nat)
      requires JobAt(s, Commit(renderedDate, previewID, true))
      modifies this
      ensures old(events) < events && IsStepOf(s, events[|old(events)|])
      ensures verdict.Ready? <==> events[|old(events)|].ok
      ensures verdict.Ready? ==> Rests(s, events, |old(events)| + 1)
      ensures verdict.Fault? ==>
                && |old(events)| < discard < |events| && IsStepOf(s, events[discard])
                && JobWasAt(s, discard, Discard(previewID))
                && Rests(s, events[..discard], |old(events)| + 1) && Rests(s, events, discard + 1)
      ensures Committed(s, Entry(previewID, renderedDate), old(MappedOf(st, s)), verdict)
      ensures JobAt(s, FreeActive(verdict))
    {
      hide Exec;
      var entry := Entry(previewID, renderedDate);
      var ok, applied := Upsert(s, entry, true);
      discard := |events|;
      if !ok {
        ghost var soFar := events;
        DeletePreviewFile(s, previewID);
        assert events[..discard] == soFar;
        return Fault(RenderFailed), discard;
      }
      return Ready(entry), discard;
    }

    // Where the job of s was after the first k events of the run.
    ghost predicate JobWasAt(s: FileId, k: nat, pc: JobPc)
      requires k <= |events|
      reads this
    {
      var past := At(capacity, events, k);
      s in past.flights && past.flights[s].pc == pc
    }

    // The body of renderAndStore between its two semaphores.
    method RenderAdmitted(s: FileId) returns (verdict: Verdict)
      requires JobAt(s, LookUpAgain)
      modifies this
      ensures old(events) <= events && JobAt(s, FreeActive(verdict))
    {
      hide Step, Exec, Valid, JobAt;
      var src, failed := FindSource(s);
      if failed {
        return Fault(Upstream);
      }
      if src == None {
        return Fault(NotFound);
      }
      var date := src.value.date;
      var reuse, refreshID, err := WriteTarget(s, date);
      if err.Some? {
        return Fault(err.value);
      }
      if reuse.Some? {
        return Ready(reuse.value);
      }
      verdict := RenderInto(s, date, refreshID);
    }

    // The one-pass stream, from the source through the renderer into its target.
    method RenderInto(s: FileId, date: int, refreshID: Option<FileId>) returns (verdict: Verdict)
      requires JobAt(s, PreviewProtocol.ReadSource(date, refreshID))
      modifies this
      ensures old(events) <= events && JobAt(s, FreeActive(verdict))
    {
      hide Step, Exec, Valid, JobAt, Committed, Rests;
      var content := ReadSource(s, date, refreshID);
      if content == None {
        return Fault(RenderFailed);
      }
      var png := Render(s, date, refreshID, content.value);
      if !png {
        return Fault(RenderFailed);
      }
      if refreshID.Some? {
        var written := WriteFile(s, date, refreshID.value, content.value);
        if !written {
          return Fault(RenderFailed);
        }
        verdict := CommitRefresh(s, refreshID.value, date);
        return;
      }
      var previewID := CreatePreviewFile(s, date, content.value);
      if previewID == None {
        return Fault(RenderFailed);
      }
      ghost var discard;
      verdict, discard := CommitMapping(s, previewID.value, date);
    }

    /** renderAndStore, run by the goroutine of the flight of s. */
    method RenderAndStore(s: FileId) returns (verdict: Verdict)
      requires JobAt(s, Admit)
      modifies this
      ensures old(events) <= events && JobAt(s, Publish(verdict))
    {
      hide Step, Exec, Valid, JobAt;
      var admitted := TryAcquireSlot(s);
      if !admitted {
        return Fault(AdmissionFull);
      }
      var acquired := AcquireActive(s);
      if !acquired {
        verdict := Fault(AdmissionFull);
        ReleaseSlot(s, verdict);
        return;
      }
      verdict := RenderAdmitted(s);
      ReleaseActive(s, verdict);
      ReleaseSlot(s, verdict);
    }

    ghost predicate CallAt(c: nat, caller: Caller)
      reads this
    {
      Valid() && c in st.callers && st.callers[c] == caller
    }

    // A caller's next step, and then everyone else.
    method Serve(c: nat, ok: bool, allowed: bool) returns (next: Caller)
      requires Valid() && c in st.callers
      modifies this
      ensures Valid() && old(events) <= events && c in st.callers
      ensures next == NextCaller(old(st).(steps := old(st.steps) + 1), old(st.callers[c]), ok, allowed)
      ensures Undisturbed(next, st.callers[c])
    {
      hide Exec;
      NextIs(capacity, st, c, ok, allowed);
      Enter(PreviewProtocol.Serve(c, ok, allowed));
      next := st.callers[c];
      OtherThanCaller(c);
    }

    method FindDocument(c: nat, ghost me: Caller) returns (src: Option<Source>, failed: bool, ghost at: nat)
      requires CallAt(c, me) && me.pc == LookUp
      modifies this
      ensures old(events) <= events
      ensures CallAt(c, AfterLookUp(me, src, failed, at))
    {
      hide Step, Exec, NextCaller, Undisturbed, AfterLookUp;
      failed := *;
      at := st.steps;
      var sourceID := st.callers[c].source;
      src := if sourceID in st.sources then Some(st.sources[sourceID]) else None;
      LookUpIs(st.(steps := st.steps + 1), st.callers[c], !failed);
      var next := Serve(c, !failed, true);
      NotWaiting(next, st.callers[c]);
    }

    // CheckPrivilege, whose decision is the authorization service's.
    method CheckRead(c: nat, ghost me: Caller, ghost source: Source) returns (allowed: bool, failed: bool)
      requires CallAt(c, me) && me.pc == Authorize(source)
      modifies this
      ensures old(events) <= events
      ensures CallAt(c, if failed then Reply(me, Refused(Upstream))
                        else if !allowed then Reply(me, Refused(NotAuthorized))
                        else if !source.previewable then Reply(me.(authorized := true), Refused(Unsupported))
                        else if me.ifNoneMatch == Some(source.date)
                        then Reply(me.(authorized := true), NotModified(source.date))
                        else me.(pc := FindCached, authorized := true))
    {
      hide Exec;
      allowed := *;
      failed := *;
      var _ := Serve(c, !failed, allowed);
    }

    // currentMapping.
    method CurrentMapping(c: nat, ghost me: Caller, currentDate: int) returns (entry: Option<Entry>, failed: bool)
      requires CallAt(c, me) && me.pc == FindCached && me.observed == currentDate
      modifies this
      ensures old(events) <= events
      ensures CallAt(c, if failed then Reply(me, Refused(Upstream))
                        else if entry.Some? then me.(pc := ReadCached(entry.value)) else me.(pc := Join))
    {
      hide Step, Exec;
      failed := *;
      entry := MappedOf(st, st.callers[c].source);
      if entry.Some? && entry.value.date != currentDate {
        entry := None;
      }
      var _ := Serve(c, !failed, true);
    }

    method ReadFile(c: nat, ghost me: Caller, entry: Entry) returns (body: Option<Pixels>, failed: bool)
      requires CallAt(c, me) && (me.pc == ReadCached(entry) || me.pc == ReadCommitted(entry))
      modifies this
      ensures old(events) <= events
      ensures me.pc.ReadCached? ==>
                CallAt(c, if failed then Reply(me, Refused(Upstream))
                          else if body.Some? then Reply(me, Body(me.observed, body.value)) else me.(pc := Join))
      ensures me.pc.ReadCommitted? ==>
                CallAt(c, if failed || body == None then Reply(me, Refused(Upstream))
                          else Reply(me, Body(entry.date, body.value)))
    {
      hide Exec;
      failed := *;
      body := if HasPixels(st, entry.previewId) then st.previews[entry.previewId] else None;
      var _ := Serve(c, !failed, true);
    }

    /** Resolve, from the lookup of the source to the response. */
    method Resolve(c: nat, sourceID: FileId, ifNoneMatch: Option<int>) returns (response: Response, ghost me: Caller)
      requires Valid() && c !in st.callers
      modifies this
      ensures old(events) <= events
      ensures CallAt(c, Reply(me, response)) && me.source == sourceID && me.ifNoneMatch == ifNoneMatch
    {
      hide Step, StepJob, Exec;
      me := Caller(sourceID, ifNoneMatch, LookUp, 0, st.steps, false, false);
      ArriveIs(capacity, st, c, sourceID, ifNoneMatch);
      Enter(Arrive(c, sourceID, ifNoneMatch));
      OtherThanCaller(c);
      var src, failed, at := FindDocument(c, me);
      if failed {
        return Refused(Upstream), me;
      }
      if src == None {
        return Refused(NotFound), me;
      }
      var etag := src.value.date;
      me := me.(pc := Authorize(src.value), observed := etag, observedAt := at);
      var allowed, denied := CheckRead(c, me, src.value);
      if denied {
        return Refused(Upstream), me;
      }
      if !allowed {
        return Refused(NotAuthorized), me;
      }
      me := me.(authorized := true);
      if !src.value.previewable {
        return Refused(Unsupported), me;
      }
      if ifNoneMatch == Some(etag) {
        return NotModified(etag), me;
      }
      me := me.(pc := FindCached);
      response, me := ResolveContent(c, me, etag);
    }

    // Resolve, once it is clear that the caller needs a body.
    method ResolveContent(c: nat, ghost caller: Caller, etag: int) returns (response: Response, ghost me: Caller)
      requires CallAt(c, caller) && caller.pc == FindCached && caller.observed == etag
      modifies this
      ensures old(events) <= events
      ensures CallAt(c, Reply(me, response)) && me.source == caller.source && me.ifNoneMatch == caller.ifNoneMatch
    {
      hide Exec;
      me := caller;
      var entry, failed := CurrentMapping(c, me, etag);
      if failed {
        return Refused(Upstream), me;
      }
      if entry.Some? {
        me := me.(pc := ReadCached(entry.value));
        var body, unreadable := ReadFile(c, me, entry.value);
        if unreadable {
          return Refused(Upstream), me;
        }
        if body.Some? {
          return Body(etag, body.value), me;
        }
      }
      me := me.(pc := Join);
      response, me := ResolveMiss(c, me);
    }

    // resolveMiss, and the reading of what the flight committed. The wait ends with the
    // flight's verdict, or with the request's own context; once both are there, with either.
    method ResolveMiss(c: nat, ghost caller: Caller) returns (response: Response, ghost me: Caller)
      requires CallAt(c, caller) && caller.pc == Join
      modifies this
      ensures old(events) <= events
      ensures CallAt(c, Reply(me, response)) && me.source == caller.source && me.ifNoneMatch == caller.ifNoneMatch
    {
      hide Exec;
      var waiting := Serve(c, true, true);
      me := st.callers[c];
      var cancelled: bool := *;
      if cancelled || st.callers[c].pc.Waiting? {
        GiveUpIs(capacity, st, c);
        Enter(GiveUp(c));
        return Refused(Cancelled), me;
      }
      var observed, verdict := st.callers[c].observed, st.callers[c].pc.verdict;
      var next := Serve(c, true, true);
      match verdict {
        case Fault(error) =>
          return Refused(error), me;
        case Ready(entry) =>
          if entry.date < observed {
            return Refused(StaleSharedRender), me;
          }
          me := me.(pc := ReadCommitted(entry));
          var body, unreadable := ReadFile(c, me, entry);
          if unreadable || body == None {
            return Refused(Upstream), me;
          }
          return Body(entry.date, body.value), me;
      }
    }
  }

  lemma ArriveIs(capacity: nat, st: State, c: nat, s: FileId, ifNoneMatch: Option<int>)
    requires c !in st.callers
    ensures var t := Step(capacity, st, Arrive(c, s, ifNoneMatch));
            c in t.callers && t.callers[c] == Caller(s, ifNoneMatch, LookUp, 0, st.steps, false, false)
  {
  }

  lemma NextIs(capacity: nat, st: State, c: nat, ok: bool, allowed: bool)
    requires c in st.callers
    ensures var t := Step(capacity, st, Serve(c, ok, allowed));
            c in t.callers && t.callers[c] == NextCaller(st.(steps := st.steps + 1), st.callers[c], ok, allowed)
  {
  }

  lemma GiveUpIs(capacity: nat, st: State, c: nat)
    requires c in st.callers && (st.callers[c].pc.Waiting? || st.callers[c].pc.Received?)
    ensures var t := Step(capacity, st, GiveUp(c));
            c in t.callers && t.callers[c] == Reply(st.callers[c], Refused(Cancelled))
  {
  }
}
