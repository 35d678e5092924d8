/** Every interleaving of the preview cache of PreviewService: callers of Resolve,
    single-flight render jobs, saves and deletions of source documents, loss of preview
    files behind the service's back, and failures of every call to another system.

    As in LockProtocol a run is any sequence of events, `Step` is total, and an event
    that cannot happen in a state leaves it alone. A source document never returns to an
    earlier update date, so its date also names its version. */
module PreviewProtocol {
  import opened Wrappers

  type FileId = string

  const MAX_ACTIVE_RENDERS: int := 2

  datatype Source = Source(date: int, previewable: bool)

  // A picture of `source` as it was when its update date was `version`.
  datatype Pixels = Pixels(source: FileId, version: int)

  // A row of document_preview_cache; the source is its key.
  datatype Entry = Entry(previewId: FileId, date: int)

  datatype Error =
    | NotFound | NotAuthorized | Unsupported | AdmissionFull | RenderFailed | StaleSharedRender | Cancelled
    | Upstream  // any other error of file-service, the authorization service or the database

  // What a flight hands to everyone waiting for it.
  datatype Verdict = Ready(entry: Entry) | Fault(error: Error)

  datatype JobPc =
    | Admit
    | Activate
    | LookUpAgain
    | FindTarget(date: int)
    | Recheck(date: int, mapped: Entry)
    | AskMetadata(date: int, mapped: Entry)
    | ReadSource(date: int, target: Option<FileId>)
    | Render(date: int, target: Option<FileId>, version: int)
    | Store(date: int, target: Option<FileId>, version: int)
    | Commit(date: int, previewId: FileId, created: bool)
    | Discard(previewId: FileId)
    | FreeActive(verdict: Verdict)
    | FreeSlot(verdict: Verdict)
    | Publish(verdict: Verdict)

  // The fields after `pc` record the history of the job: how long the run was when it
  // looked its source up again, what it has done, the mapping it started from, and
  // whether an update of the mapping was reported as failed although it happened.
  datatype Job = Job(pc: JobPc, lookedUpAt: nat, renders: nat, writes: nat, creates: nat,
                     before: Option<Entry>, doubted: bool)

  datatype Response = NotModified(etag: int) | Body(etag: int, pixels: Pixels) | Refused(error: Error)

  datatype CallerPc =
    | LookUp
    | Authorize(source: Source)
    | FindCached
    | ReadCached(entry: Entry)
    | Join
    | Waiting
    | Received(verdict: Verdict, lookedUpAt: nat)
    | ReadCommitted(entry: Entry)
    | Replied(response: Response)

  datatype Caller = Caller(source: FileId, ifNoneMatch: Option<int>, pc: CallerPc,
                           observed: int, observedAt: nat, authorized: bool, leader: bool)

  // The last six fields are history: who each preview file ever created was made for,
  // every source there ever was, every preview ID the mapping ever named, those named
  // by an update that was reported as failed, those left behind, the length of the run.
  datatype State = State(
    sources: map<FileId, Source>,
    previews: map<FileId, Option<Pixels>>,  // rows, with their content unless it is missing
    mapping: map<FileId, Entry>,
    flights: map<FileId, Job>,              // single-flight: at most one job per source
    callers: map<nat, Caller>,
    slots: int,
    active: int,
    owner: map<FileId, FileId>,
    known: set<FileId>,
    everMapped: set<FileId>,
    doubtful: set<FileId>,
    strays: set<FileId>,
    steps: nat)

  // `ok` says that a call made in the step reports success; `applied`, that it had its
  // effect although it reports failure; `newId` is the ID file-service gives a new file.
  datatype Event =
    | NewSource(s: FileId, date: int, previewable: bool)
    | Save(s: FileId, date: int, previewable: bool)
    | DropSource(s: FileId)
    | LosePixels(p: FileId)
    | LoseRow(p: FileId)
    | Arrive(c: nat, s: FileId, ifNoneMatch: Option<int>)
    | Serve(c: nat, ok: bool, allowed: bool)
    | GiveUp(c: nat)
    | Work(s: FileId, ok: bool, applied: bool, newId: FileId)

  function Init(): State {
    State(map[], map[], map[], map[], map[], 0, 0, map[], {}, {}, {}, {}, 0)
  }

  predicate HasPixels(st: State, p: FileId) {
    p in st.previews && st.previews[p].Some?
  }

  predicate IsFresh(st: State, p: FileId) {
    p != "" && p !in st.known && p !in st.owner
  }

  function MappedOf(st: State, s: FileId): Option<Entry> {
    if s in st.mapping then Some(st.mapping[s]) else None
  }

  function Step(capacity: nat, st: State, e: Event): (r: State)
    ensures r.steps == st.steps + 1
  {
    Act(capacity, st.(steps := st.steps + 1), e)
  }

  function Act(capacity: nat, t: State, e: Event): (r: State)
    requires t.steps > 0
    ensures r.steps == t.steps
  {
    match e
    case NewSource(s, date, previewable) =>
      if IsFresh(t, s) then t.(sources := t.sources[s := Source(date, previewable)], known := t.known + {s}) else t
    case Save(s, date, previewable) =>
      if s in t.sources && t.sources[s].date < date
      then t.(sources := t.sources[s := Source(date, previewable)]) else t
    case DropSource(s) => t.(sources := t.sources - {s})
    case LosePixels(p) => if p in t.previews then t.(previews := t.previews[p := None]) else t
    case LoseRow(p) => t.(previews := t.previews - {p})
    case Arrive(c, s, ifNoneMatch) =>
      if c in t.callers then t
      else t.(callers := t.callers[c := Caller(s, ifNoneMatch, LookUp, 0, t.steps - 1, false, false)])
    case Serve(c, ok, allowed) => if c in t.callers then StepCaller(t, c, t.callers[c], ok, allowed) else t
    case GiveUp(c) =>
      if c in t.callers && (t.callers[c].pc.Waiting? || t.callers[c].pc.Received?)
      then t.(callers := t.callers[c := Reply(t.callers[c], Refused(Cancelled))]) else t
    case Work(s, ok, applied, newId) =>
      if s in t.flights then StepJob(capacity, t, s, t.flights[s], ok, applied, newId) else t
  }

  function Reply(caller: Caller, response: Response): Caller {
    caller.(pc := Replied(response))
  }

  // Resolve, one call to another system at a time. A caller that misses the cache joins
  // the flight of its source, or starts one.
  function StepCaller(t: State, c: nat, caller: Caller, ok: bool, allowed: bool): (r: State)
    requires t.steps > 0
    ensures r.steps == t.steps
  {
    t.(callers := t.callers[c := NextCaller(t, caller, ok, allowed)],
       flights := if caller.pc.Join? && caller.source !in t.flights
                  then t.flights[caller.source := Job(Admit, 0, 0, 0, 0, MappedOf(t, caller.source), false)]
                  else t.flights)
  }

  function NextCaller(t: State, caller: Caller, ok: bool, allowed: bool): Caller
    requires t.steps > 0
  {
    var s := caller.source;
    match caller.pc
    case LookUp =>
      if !ok then Reply(caller, Refused(Upstream))
      else if s !in t.sources then Reply(caller, Refused(NotFound))
      else caller.(pc := Authorize(t.sources[s]), observed := t.sources[s].date, observedAt := t.steps - 1)
    case Authorize(source) =>
      if !ok then Reply(caller, Refused(Upstream))
      else if !allowed then Reply(caller, Refused(NotAuthorized))
      else if !source.previewable then Reply(caller.(authorized := true), Refused(Unsupported))
      else if caller.ifNoneMatch == Some(source.date) then Reply(caller.(authorized := true), NotModified(source.date))
      else caller.(pc := FindCached, authorized := true)
    case FindCached =>
      if !ok then Reply(caller, Refused(Upstream))
      else if s in t.mapping && t.mapping[s].date == caller.observed then caller.(pc := ReadCached(t.mapping[s]))
      else caller.(pc := Join)
    case ReadCached(entry) =>
      if !ok then Reply(caller, Refused(Upstream))
      else if HasPixels(t, entry.previewId) then Reply(caller, Body(caller.observed, t.previews[entry.previewId].value))
      else caller.(pc := Join)
    case Join => caller.(pc := Waiting, leader := s !in t.flights)
    case Waiting => caller
    case Received(Fault(error), _) => Reply(caller, Refused(error))
    case Received(Ready(entry), _) =>
      if entry.date < caller.observed then Reply(caller, Refused(StaleSharedRender))
      else caller.(pc := ReadCommitted(entry))
    case ReadCommitted(entry) =>
      if ok && HasPixels(t, entry.previewId) then Reply(caller, Body(entry.date, t.previews[entry.previewId].value))
      else Reply(caller, Refused(Upstream))
    case Replied(_) => caller
  }

  // renderAndStore, one call to another system or semaphore at a time. Every exit goes
  // through the deferred releases of what the job holds.
  function StepJob(capacity: nat, t: State, s: FileId, job: Job, ok: bool, applied: bool, newId: FileId): (r: State)
    requires t.steps > 0
    ensures r.steps == t.steps
  {
    match job.pc
    case Store(_, _, _) => StepStore(t, s, job, ok, applied, newId)
    case Commit(date, p, created) =>
      var next := if !ok && created then Discard(p)
                  else FreeActive(if ok then Ready(Entry(p, date)) else Fault(RenderFailed));
      if !ok && !applied then Goto(t, s, job.(pc := next))
      else Goto(t, s, job.(pc := next, doubted := !ok))
           .(mapping := t.mapping[s := Entry(p, date)],
             everMapped := t.everMapped + {p},
             doubtful := if ok then t.doubtful else t.doubtful + {p})
    case Discard(p) =>
      if ok || applied then Goto(t, s, Exit(job, Fault(RenderFailed))).(previews := t.previews - {p})
      else Goto(t, s, Exit(job, Fault(RenderFailed))).(strays := t.strays + {p})
    case Publish(verdict) =>
      t.(flights := t.flights - {s},
         callers := map c | c in t.callers ::
           if t.callers[c].source == s && t.callers[c].pc.Waiting?
           then t.callers[c].(pc := Received(verdict, job.lookedUpAt)) else t.callers[c])
    case _ => StepQuiet(capacity, t, s, job, ok)
  }

  // The steps that change nothing but the job and the semaphores.
  function StepQuiet(capacity: nat, t: State, s: FileId, job: Job, ok: bool): (r: State)
    requires t.steps > 0
    ensures r.steps == t.steps
  {
    t.(flights := t.flights[s := NextJob(capacity, t, s, job, ok)],
       slots := t.slots + SlotsTaken(capacity, t, job.pc),
       active := t.active + PermitsTaken(t, job.pc, ok))
  }

  predicate Admits(capacity: nat, t: State) {
    t.slots < MAX_ACTIVE_RENDERS + capacity
  }

  // What a step adds to the two semaphores.
  function SlotsTaken(capacity: nat, t: State, pc: JobPc): int {
    if pc.Admit? && Admits(capacity, t) then 1 else if pc.FreeSlot? then -1 else 0
  }

  function PermitsTaken(t: State, pc: JobPc, ok: bool): int {
    if pc.Activate? && ok && t.active < MAX_ACTIVE_RENDERS then 1 else if pc.FreeActive? then -1 else 0
  }

  function NextJob(capacity: nat, t: State, s: FileId, job: Job, ok: bool): Job
    requires t.steps > 0
  {
    match job.pc
    case Admit => job.(pc := if Admits(capacity, t) then Activate else Publish(Fault(AdmissionFull)))
    case Activate =>
      if !ok then job.(pc := FreeSlot(Fault(AdmissionFull)))
      else if t.active < MAX_ACTIVE_RENDERS then job.(pc := LookUpAgain)
      else job
    case LookUpAgain =>
      if !ok then Exit(job, Fault(Upstream))
      else if s !in t.sources then Exit(job, Fault(NotFound))
      else job.(pc := FindTarget(t.sources[s].date), lookedUpAt := t.steps - 1)
    case FindTarget(date) =>
      if !ok then Exit(job, Fault(Upstream))
      else if s !in t.mapping then job.(pc := ReadSource(date, None))
      else if t.mapping[s].date == date then job.(pc := Recheck(date, t.mapping[s]))
      else job.(pc := AskMetadata(date, t.mapping[s]))
    case Recheck(date, mapped) =>
      if !ok then Exit(job, Fault(RenderFailed))
      else if HasPixels(t, mapped.previewId) then Exit(job, Ready(mapped))
      else job.(pc := AskMetadata(date, mapped))
    case AskMetadata(date, mapped) =>
      if !ok then Exit(job, Fault(RenderFailed))
      else if mapped.previewId !in t.previews then job.(pc := ReadSource(date, None))
      else job.(pc := ReadSource(date, Some(mapped.previewId)))
    case ReadSource(date, target) =>
      if !ok || s !in t.sources then Exit(job, Fault(RenderFailed))
      else job.(pc := Render(date, target, t.sources[s].date))
    case Render(date, target, version) =>
      var done := job.(renders := job.renders + 1);
      if !ok then Exit(done, Fault(RenderFailed)) else done.(pc := Store(date, target, version))
    case FreeActive(verdict) => job.(pc := FreeSlot(verdict))
    case FreeSlot(verdict) => job.(pc := Publish(verdict))
    case _ => job
  }

  // The one-pass picture goes either into the mapped preview file or into a new one.
  function StepStore(t: State, s: FileId, job: Job, ok: bool, applied: bool, newId: FileId): (r: State)
    requires job.pc.Store?
    ensures r.steps == t.steps
  {
    var pixels := Pixels(s, job.pc.version);
    match job.pc.target
    case Some(p) =>
      var done := job.(writes := job.writes + 1);
      if p !in t.previews || (!ok && !applied) then Goto(t, s, Exit(done, Fault(RenderFailed)))
      else Goto(t, s, if ok then done.(pc := Commit(job.pc.date, p, false)) else Exit(done, Fault(RenderFailed)))
           .(previews := t.previews[p := Some(pixels)])
    case None =>
      var done := job.(creates := job.creates + 1);
      if !ok && !applied then Goto(t, s, Exit(done, Fault(RenderFailed)))
      else if !IsFresh(t, newId) then t
      else Goto(t, s, if ok then done.(pc := Commit(job.pc.date, newId, true)) else Exit(done, Fault(RenderFailed)))
           .(previews := t.previews[newId := Some(pixels)], owner := t.owner[newId := s],
             strays := if ok then t.strays else t.strays + {newId})
  }

  function Goto(t: State, s: FileId, job: Job): State {
    t.(flights := t.flights[s := job])
  }

  function Exit(job: Job, verdict: Verdict): Job {
    job.(pc := FreeActive(verdict))
  }

  function Exec(capacity: nat, evs: seq<Event>): (st: State)
    ensures st.steps == |evs|
  {
    if evs == [] then Init() else Step(capacity, Exec(capacity, evs[..|evs| - 1]), evs[|evs| - 1])
  }

  // The state of a run after its first i events.
  function At(capacity: nat, evs: seq<Event>, i: nat): (st: State)
    requires i <= |evs|
    ensures st.steps == i
  {
    Exec(capacity, evs[..i])
  }

  lemma NextState(capacity: nat, evs: seq<Event>, i: nat)
    requires i < |evs|
    ensures At(capacity, evs, i + 1) == Step(capacity, At(capacity, evs, i), evs[i])
  {
    assert evs[..i + 1][..i] == evs[..i];
  }

  lemma SamePast(capacity: nat, evs: seq<Event>, n: nat, i: nat)
    requires i <= n <= |evs|
    ensures At(capacity, evs[..n], i) == At(capacity, evs, i)
  {
    assert evs[..n][..i] == evs[..i];
  }

  lemma ExecAppend(capacity: nat, evs: seq<Event>, e: Event)
    ensures Exec(capacity, evs + [e]) == Step(capacity, Exec(capacity, evs), e)
  {
    assert (evs + [e])[..|evs|] == evs;
  }

  // A step of a job, as the job's own step.
  lemma WorkStepIs(capacity: nat, st: State, e: Event)
    requires e.Work?
    ensures e.s in st.flights ==>
              Step(capacity, st, e) ==
              StepJob(capacity, st.(steps := st.steps + 1), e.s, st.flights[e.s], e.ok, e.applied, e.newId)
    ensures e.s !in st.flights ==> Step(capacity, st, e) == st.(steps := st.steps + 1)
  {
    hide StepJob;
  }
}
