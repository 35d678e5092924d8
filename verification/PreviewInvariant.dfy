/** What holds of the preview cache in every reachable state. */
module PreviewInvariant {
  import opened Wrappers
  import opened PreviewProtocol

  // The preview was made for s, and what it shows, if anything, is s no older than the date.
  ghost predicate EntryOk(st: State, s: FileId, e: Entry) {
    && e.previewId in st.owner && st.owner[e.previewId] == s
    && (HasPixels(st, e.previewId) ==>
          st.previews[e.previewId].value.source == s && st.previews[e.previewId].value.version >= e.date)
  }

  ghost predicate MappingOk(st: State, s: FileId) {
    s in st.mapping ==>
      && s in st.known
      && EntryOk(st, s, st.mapping[s])
      && st.mapping[s].previewId in st.everMapped
      && (s in st.sources ==> st.mapping[s].date <= st.sources[s].date)
  }

  // The update date the job found when it looked its source up again.
  function DateOf(pc: JobPc): Option<int> {
    match pc
    case FindTarget(date) => Some(date)
    case Recheck(date, _) => Some(date)
    case AskMetadata(date, _) => Some(date)
    case ReadSource(date, _) => Some(date)
    case Render(date, _, _) => Some(date)
    case Store(date, _, _) => Some(date)
    case Commit(date, _, _) => Some(date)
    case _ => None
  }

  function VerdictOf(pc: JobPc): Option<Verdict> {
    match pc
    case FreeActive(verdict) => Some(verdict)
    case FreeSlot(verdict) => Some(verdict)
    case Publish(verdict) => Some(verdict)
    case _ => None
  }

  // A job creates a preview file only if none is mapped or the mapped row is gone.
  ghost predicate TargetOk(st: State, s: FileId, target: Option<FileId>) {
    match target
    case Some(p) => s in st.mapping && st.mapping[s].previewId == p
    case None => s in st.mapping ==> st.mapping[s].previewId !in st.previews
  }

  ghost predicate DateOk(st: State, s: FileId, date: int) {
    && (s in st.mapping ==> st.mapping[s].date <= date)
    && (s in st.sources ==> date <= st.sources[s].date)
  }

  ghost predicate PointOk(st: State, s: FileId, pc: JobPc) {
    match pc
    case Recheck(date, mapped) => s in st.mapping && st.mapping[s] == mapped && mapped.date == date
    case AskMetadata(_, mapped) => s in st.mapping && st.mapping[s] == mapped
    case ReadSource(_, target) => TargetOk(st, s, target)
    case Render(date, target, version) => TargetOk(st, s, target) && date <= version
    case Store(date, target, version) => TargetOk(st, s, target) && date <= version
    case Commit(date, p, created) =>
      && EntryOk(st, s, Entry(p, date))
      && TargetOk(st, s, if created then None else Some(p))
      && (created ==> p !in st.everMapped && p !in st.doubtful)
    case Discard(p) =>
      && p in st.owner && st.owner[p] == s
      && (p in st.everMapped <==> p in st.doubtful)
    case _ => true
  }

  ghost predicate VerdictOk(st: State, s: FileId, verdict: Verdict) {
    match verdict
    case Ready(entry) => s in st.mapping && st.mapping[s] == entry
    case Fault(error) => error != StaleSharedRender
  }

  // Each job renders at most once, and what it renders goes to one place at most.
  ghost predicate LinearOk(job: Job) {
    var verdict := VerdictOf(job.pc);
    if verdict.Some? then
      && job.renders <= 1 && job.writes + job.creates <= job.renders
      && (verdict.value.Ready? ==> job.writes + job.creates == job.renders)
    else match job.pc
      case Store(_, _, _) => job.renders == 1 && job.writes == job.creates == 0
      case Commit(_, _, created) =>
        && job.renders == 1
        && (if created then job.creates == 1 && job.writes == 0 else job.writes == 1 && job.creates == 0)
      case Discard(_) => job.renders == 1 && job.creates == 1 && job.writes == 0
      case _ => job.renders == job.writes == job.creates == 0
  }

  // Until it succeeds, a job leaves the mapping as it found it.
  ghost predicate FramingOk(st: State, s: FileId, job: Job) {
    var verdict := VerdictOf(job.pc);
    && (job.doubted ==> job.pc.Discard? || (verdict.Some? && verdict.value.Fault?))
    && (!job.doubted && (verdict == None || verdict.value.Fault?) ==> MappedOf(st, s) == job.before)
  }

  ghost predicate JobOk(st: State, s: FileId, job: Job) {
    && s in st.known
    && (DateOf(job.pc).Some? ==> DateOk(st, s, DateOf(job.pc).value))
    && PointOk(st, s, job.pc)
    && (VerdictOf(job.pc).Some? ==> VerdictOk(st, s, VerdictOf(job.pc).value))
    && LinearOk(job)
    && FramingOk(st, s, job)
  }

  // An entry a caller holds has been mapped, if not with the date it has now.
  ghost predicate HeldOk(st: State, s: FileId, e: Entry) {
    EntryOk(st, s, e) && s in st.mapping && e.date <= st.mapping[s].date
  }

  ghost predicate LeaderOk(job: Job, observed: int) {
    && (DateOf(job.pc).Some? ==> observed <= DateOf(job.pc).value)
    && (VerdictOf(job.pc).Some? && VerdictOf(job.pc).value.Ready? ==> observed <= VerdictOf(job.pc).value.entry.date)
  }

  predicate HasLookedUp(pc: CallerPc) {
    !pc.LookUp? && !pc.Replied?
  }

  ghost predicate ReplyOk(caller: Caller, response: Response) {
    match response
    case Body(etag, pixels) =>
      && caller.authorized && pixels.source == caller.source
      && pixels.version >= etag && etag >= caller.observed
    case NotModified(etag) => caller.authorized && etag == caller.observed && caller.ifNoneMatch == Some(etag)
    case Refused(error) => error == StaleSharedRender ==> !caller.leader
  }

  ghost predicate CallerOk(st: State, caller: Caller) {
    var s := caller.source;
    && (HasLookedUp(caller.pc) ==>
          s in st.known && (s in st.sources ==> caller.observed <= st.sources[s].date))
    && (HasLookedUp(caller.pc) && !caller.pc.Authorize? ==> caller.authorized)
    && (caller.leader ==> caller.pc.Waiting? || caller.pc.Received? || caller.pc.ReadCommitted? || caller.pc.Replied?)
    && (match caller.pc
        case Authorize(source) => source.date == caller.observed
        case ReadCached(e) => HeldOk(st, s, e) && e.date == caller.observed
        case Waiting => s in st.flights && (caller.leader ==> LeaderOk(st.flights[s], caller.observed))
        case Received(Ready(e), _) => HeldOk(st, s, e) && (caller.leader ==> caller.observed <= e.date)
        case Received(Fault(error), _) => error != StaleSharedRender
        case ReadCommitted(e) => HeldOk(st, s, e) && caller.observed <= e.date
        case Replied(response) => ReplyOk(caller, response)
        case _ => true)
  }

  ghost predicate IdsOk(st: State) {
    && st.sources.Keys <= st.known
    && st.previews.Keys <= st.owner.Keys
    && st.known !! st.owner.Keys
    && st.everMapped <= st.owner.Keys
    && st.doubtful <= st.everMapped
    && st.strays <= st.owner.Keys
    && "" !in st.owner
  }

  // The job holds the row of a preview file it has created and not yet published.
  predicate Holding(job: Job, p: FileId) {
    match job.pc
    case Commit(_, q, created) => created && q == p
    case Discard(q) => q == p
    case _ => false
  }

  ghost predicate RowOk(st: State, p: FileId) {
    p in st.previews ==>
      p in st.owner
      && var s := st.owner[p];
         || (s in st.mapping && st.mapping[s].previewId == p)
         || (s in st.flights && Holding(st.flights[s], p))
         || p in st.strays
  }

  ghost predicate RowsOk(st: State) {
    forall p :: p in st.previews ==> RowOk(st, p)
  }

  ghost predicate MappingsOk(st: State) {
    forall s :: s in st.mapping ==> MappingOk(st, s)
  }

  ghost predicate JobsOk(st: State) {
    forall s :: s in st.flights ==> JobOk(st, s, st.flights[s])
  }

  ghost predicate CallersOk(st: State) {
    forall c :: c in st.callers ==> CallerOk(st, st.callers[c])
  }

  ghost predicate Inv(st: State) {
    IdsOk(st) && RowsOk(st) && MappingsOk(st) && JobsOk(st) && CallersOk(st)
  }

  // Nothing about s has changed, except that its date may have grown, it may have been
  // deleted, and previews of it may have lost their content or their rows.
  ghost predicate Calm(st: State, t: State, s: FileId) {
    && MappedOf(t, s) == MappedOf(st, s)
    && st.known <= t.known
    && (s in t.sources ==> s in st.sources && st.sources[s].date <= t.sources[s].date)
    && (forall p :: p in st.owner ==> p in t.owner && t.owner[p] == st.owner[p])
    && (forall p :: p in t.previews && p in t.owner && t.owner[p] == s ==>
          p in st.previews && (t.previews[p] == st.previews[p] || t.previews[p] == None))
    && (forall p :: p in st.owner && st.owner[p] == s ==>
          (p in t.everMapped <==> p in st.everMapped) && (p in t.doubtful <==> p in st.doubtful))
  }

  lemma CalmKeepsMapping(st: State, t: State, s: FileId)
    requires IdsOk(st) && Calm(st, t, s) && MappingOk(st, s)
    ensures MappingOk(t, s)
  {
  }

  lemma CalmKeepsEntry(st: State, t: State, s: FileId, e: Entry)
    requires Calm(st, t, s) && EntryOk(st, s, e)
    ensures EntryOk(t, s, e)
  {
  }

  lemma CalmKeepsJob(st: State, t: State, s: FileId, job: Job)
    requires IdsOk(st) && Calm(st, t, s) && MappingOk(st, s) && JobOk(st, s, job)
    ensures JobOk(t, s, job)
  {
    if job.pc.Commit? {
      CalmKeepsEntry(st, t, s, Entry(job.pc.previewId, job.pc.date));
    }
    if s in t.mapping {
      assert st.mapping[s] == t.mapping[s];
      assert t.mapping[s].previewId in t.owner && t.owner[t.mapping[s].previewId] == s;
    }
  }

  lemma CalmKeepsCaller(st: State, t: State, caller: Caller)
    requires Calm(st, t, caller.source) && CallerOk(st, caller)
    requires caller.source in st.flights && caller.pc.Waiting? ==>
               caller.source in t.flights && t.flights[caller.source] == st.flights[caller.source]
    ensures CallerOk(t, caller)
  {
  }

  lemma InitOk()
    ensures Inv(Init())
  {
  }

  // Events of the outside world.
  predicate IsOutside(e: Event) {
    e.NewSource? || e.Save? || e.DropSource? || e.LosePixels? || e.LoseRow?
  }

  // What a step that touches neither the mapping nor any flight or caller leaves in place.
  ghost predicate OnlyOutside(st: State, t: State) {
    && t.mapping == st.mapping && t.flights == st.flights && t.callers == st.callers && t.owner == st.owner
    && t.everMapped == st.everMapped && t.doubtful == st.doubtful && t.strays == st.strays
    && t.slots == st.slots && t.active == st.active
    && t.previews.Keys <= st.previews.Keys
    && IdsOk(t)
    && (forall s :: s in st.known ==> Calm(st, t, s))
  }

  lemma OutsideFields(capacity: nat, st: State, e: Event)
    requires IsOutside(e)
    ensures var t := Step(capacity, st, e);
            && t.mapping == st.mapping && t.flights == st.flights && t.callers == st.callers && t.owner == st.owner
            && t.everMapped == st.everMapped && t.doubtful == st.doubtful && t.strays == st.strays
            && t.slots == st.slots && t.active == st.active
            && (t.sources, t.known, t.previews) == (
              match e
              case NewSource(s, date, previewable) =>
                if IsFresh(st, s) then (st.sources[s := Source(date, previewable)], st.known + {s}, st.previews)
                else (st.sources, st.known, st.previews)
              case Save(s, date, previewable) =>
                if s in st.sources && st.sources[s].date < date
                then (st.sources[s := Source(date, previewable)], st.known, st.previews)
                else (st.sources, st.known, st.previews)
              case DropSource(s) => (st.sources - {s}, st.known, st.previews)
              case LosePixels(p) =>
                (st.sources, st.known, if p in st.previews then st.previews[p := None] else st.previews)
              case LoseRow(p) => (st.sources, st.known, st.previews - {p})
              case _ => (st.sources, st.known, st.previews))
  {
    hide StepCaller, StepJob;
  }

  lemma OutsideIsCalm(capacity: nat, st: State, e: Event)
    requires IdsOk(st) && IsOutside(e)
    ensures OnlyOutside(st, Step(capacity, st, e))
  {
    OutsideFields(capacity, st, e);
    var t := Step(capacity, st, e);
    forall s | s in st.known ensures Calm(st, t, s) {
      assert s in t.sources ==> s in st.sources && st.sources[s].date <= t.sources[s].date;
    }
  }

  lemma OutsideKeeps(st: State, t: State)
    requires Inv(st) && OnlyOutside(st, t)
    ensures Inv(t)
  {
    forall s | s in t.mapping ensures MappingOk(t, s) {
      assert MappingOk(st, s);
      CalmKeepsMapping(st, t, s);
    }
    forall s | s in t.flights ensures JobOk(t, s, t.flights[s]) {
      assert JobOk(st, s, st.flights[s]);
      CalmKeepsJob(st, t, s, t.flights[s]);
    }
    forall c | c in t.callers ensures CallerOk(t, t.callers[c]) {
      var caller := st.callers[c];
      assert CallerOk(st, caller);
      if HasLookedUp(caller.pc) {
        CalmKeepsCaller(st, t, caller);
      }
    }
    forall p | p in t.previews ensures RowOk(t, p) {
      assert RowOk(st, p);
    }
  }

  // Only this caller has changed, and at most a new flight has taken off.
  ghost predicate OnlyCaller(st: State, t: State, c: nat) {
    && t.sources == st.sources && t.previews == st.previews && t.mapping == st.mapping && t.owner == st.owner
    && t.known == st.known && t.everMapped == st.everMapped && t.doubtful == st.doubtful && t.strays == st.strays
    && t.slots == st.slots && t.active == st.active
    && (forall s :: s in st.flights ==> s in t.flights && t.flights[s] == st.flights[s])
    && (forall s :: s in t.flights && s !in st.flights ==> s in st.known && t.flights[s] == NewJob(st, s))
    && (forall d :: d in t.callers && d != c ==> d in st.callers && t.callers[d] == st.callers[d])
  }

  function NewJob(st: State, s: FileId): Job {
    Job(Admit, 0, 0, 0, 0, MappedOf(st, s), false)
  }

  lemma OnlyCallerKeepsJobs(st: State, t: State, c: nat)
    requires IdsOk(st) && MappingsOk(st) && JobsOk(st) && OnlyCaller(st, t, c)
    ensures JobsOk(t)
  {
    forall s | s in t.flights ensures JobOk(t, s, t.flights[s]) {
      if s in st.flights {
        assert JobOk(st, s, st.flights[s]);
        assert MappingOk(st, s);
        CalmKeepsJob(st, t, s, t.flights[s]);
      }
    }
  }

  lemma OnlyCallerKeepsCallers(st: State, t: State, c: nat)
    requires CallersOk(st) && OnlyCaller(st, t, c) && (c in t.callers ==> CallerOk(t, t.callers[c]))
    ensures CallersOk(t)
  {
    forall d | d in t.callers ensures CallerOk(t, t.callers[d]) {
      if d != c {
        assert CallerOk(st, st.callers[d]);
        CalmKeepsCaller(st, t, st.callers[d]);
      }
    }
  }

  lemma OnlyCallerKeepsRows(st: State, t: State, c: nat)
    requires RowsOk(st) && MappingsOk(st) && OnlyCaller(st, t, c)
    ensures RowsOk(t) && MappingsOk(t)
  {
    forall s | s in t.mapping ensures MappingOk(t, s) {
      assert MappingOk(st, s);
    }
    forall p | p in t.previews ensures RowOk(t, p) {
      assert RowOk(st, p);
    }
  }

  lemma OnlyCallerKeeps(st: State, t: State, c: nat)
    requires Inv(st) && OnlyCaller(st, t, c) && (c in t.callers ==> CallerOk(t, t.callers[c]))
    ensures Inv(t)
  {
    OnlyCallerKeepsRows(st, t, c);
    OnlyCallerKeepsJobs(st, t, c);
    OnlyCallerKeepsCallers(st, t, c);
  }

  lemma ArriveIs(capacity: nat, st: State, c: nat, s: FileId, ifNoneMatch: Option<int>)
    ensures var t := Step(capacity, st, Arrive(c, s, ifNoneMatch));
            && OnlyCaller(st, t, c) && c in t.callers
            && (c in st.callers ==> t.callers[c] == st.callers[c])
            && (c !in st.callers ==> t.callers[c] == Caller(s, ifNoneMatch, LookUp, 0, st.steps, false, false))
  {
    hide StepCaller, StepJob;
  }

  lemma GiveUpIs(capacity: nat, st: State, c: nat)
    ensures var t := Step(capacity, st, GiveUp(c));
            && OnlyCaller(st, t, c) && t.callers.Keys == st.callers.Keys
            && (c in st.callers ==>
                  t.callers[c] == if st.callers[c].pc.Waiting? || st.callers[c].pc.Received?
                                  then Reply(st.callers[c], Refused(Cancelled)) else st.callers[c])
  {
    hide StepCaller, StepJob;
  }

  lemma ServeIs(capacity: nat, st: State, c: nat, ok: bool, allowed: bool)
    requires c in st.callers && (HasLookedUp(st.callers[c].pc) ==> st.callers[c].source in st.known)
    ensures var t := Step(capacity, st, Serve(c, ok, allowed));
            && OnlyCaller(st, t, c) && c in t.callers
            && t.callers[c] == NextCaller(st.(steps := st.steps + 1), st.callers[c], ok, allowed)
            && (st.callers[c].pc.Join? ==> st.callers[c].source in t.flights)
  {
    hide StepJob, NextCaller;
  }

  lemma UnservedCallerOk(st: State, t: State, c: nat)
    requires CallersOk(st) && OnlyCaller(st, t, c)
    requires c in st.callers && c in t.callers
    requires t.callers[c] == st.callers[c] || t.callers[c] == Reply(st.callers[c], Refused(Cancelled))
    ensures CallerOk(t, t.callers[c])
  {
    assert CallerOk(st, st.callers[c]);
    CalmKeepsCaller(st, t, st.callers[c]);
  }

  lemma ArriveKeeps(capacity: nat, st: State, c: nat, s: FileId, ifNoneMatch: Option<int>)
    requires Inv(st)
    ensures Inv(Step(capacity, st, Arrive(c, s, ifNoneMatch)))
  {
    var t := Step(capacity, st, Arrive(c, s, ifNoneMatch));
    ArriveIs(capacity, st, c, s, ifNoneMatch);
    if c in st.callers {
      UnservedCallerOk(st, t, c);
    }
    OnlyCallerKeeps(st, t, c);
  }

  lemma GiveUpKeeps(capacity: nat, st: State, c: nat)
    requires Inv(st)
    ensures Inv(Step(capacity, st, GiveUp(c)))
  {
    var t := Step(capacity, st, GiveUp(c));
    GiveUpIs(capacity, st, c);
    if c in st.callers {
      UnservedCallerOk(st, t, c);
    }
    OnlyCallerKeeps(st, t, c);
  }

  lemma ServeKeeps(capacity: nat, st: State, c: nat, ok: bool, allowed: bool)
    requires Inv(st) && c in st.callers
    ensures Inv(Step(capacity, st, Serve(c, ok, allowed)))
  {
    hide Step, NextCaller, JobOk, RowOk;
    var t := Step(capacity, st, Serve(c, ok, allowed));
    var caller := st.callers[c];
    assert CallerOk(st, caller);
    assert caller.source in st.mapping ==> MappingOk(st, caller.source);
    ServeIs(capacity, st, c, ok, allowed);
    ServedCallerOk(st.(steps := st.steps + 1), t, caller, ok, allowed);
    OnlyCallerKeeps(st, t, c);
  }

  // The tables as a step of this caller finds them (st) and leaves them (t).
  ghost predicate Serving(st: State, t: State, caller: Caller) {
    && CallerOk(st, caller) && MappingOk(st, caller.source) && st.sources.Keys <= st.known && st.steps > 0
    && t.sources == st.sources && t.previews == st.previews && t.mapping == st.mapping && t.owner == st.owner
    && t.known == st.known
    && (caller.source in st.flights ==>
          caller.source in t.flights && t.flights[caller.source] == st.flights[caller.source])
    && (caller.pc.Join? && caller.source !in st.flights ==>
          caller.source in t.flights && t.flights[caller.source].pc == Admit)
  }

  lemma ServedEarly(st: State, t: State, caller: Caller, ok: bool, allowed: bool)
    requires Serving(st, t, caller) && (caller.pc.LookUp? || caller.pc.Authorize? || caller.pc.Join?)
    ensures CallerOk(t, NextCaller(st, caller, ok, allowed))
  {
  }

  lemma ServedFromCache(st: State, t: State, caller: Caller, ok: bool, allowed: bool)
    requires Serving(st, t, caller) && (caller.pc.FindCached? || caller.pc.ReadCached?)
    ensures CallerOk(t, NextCaller(st, caller, ok, allowed))
  {
  }

  lemma ServedFromFlight(st: State, t: State, caller: Caller, ok: bool, allowed: bool)
    requires Serving(st, t, caller) && (caller.pc.Received? || caller.pc.ReadCommitted?)
    ensures CallerOk(t, NextCaller(st, caller, ok, allowed))
  {
  }

  lemma ServedCallerOk(st: State, t: State, caller: Caller, ok: bool, allowed: bool)
    requires Serving(st, t, caller)
    ensures CallerOk(t, NextCaller(st, caller, ok, allowed))
  {
    if caller.pc.LookUp? || caller.pc.Authorize? || caller.pc.Join? {
      ServedEarly(st, t, caller, ok, allowed);
    } else if caller.pc.FindCached? || caller.pc.ReadCached? {
      ServedFromCache(st, t, caller, ok, allowed);
    } else if caller.pc.Received? || caller.pc.ReadCommitted? {
      ServedFromFlight(st, t, caller, ok, allowed);
    }
  }

  // Only the job of s and the semaphores have changed.
  ghost predicate OnlyJob(st: State, t: State, s: FileId) {
    && t.sources == st.sources && t.previews == st.previews && t.mapping == st.mapping && t.owner == st.owner
    && t.known == st.known && t.everMapped == st.everMapped && t.doubtful == st.doubtful && t.strays == st.strays
    && t.callers == st.callers
    && s in st.flights && s in t.flights && t.flights == st.flights[s := t.flights[s]]
  }

  predicate IsQuiet(pc: JobPc) {
    !pc.Store? && !pc.Commit? && !pc.Discard? && !pc.Publish?
  }

  lemma QuietIs(capacity: nat, st: State, s: FileId, ok: bool, applied: bool, newId: FileId)
    requires s in st.flights && IsQuiet(st.flights[s].pc)
    ensures Step(capacity, st, Work(s, ok, applied, newId))
         == StepQuiet(capacity, st.(steps := st.steps + 1), s, st.flights[s], ok)
  {
  }

  lemma QuietJobOk(capacity: nat, st: State, s: FileId, job: Job, ok: bool)
    requires st.steps > 0 && IsQuiet(job.pc) && JobOk(st, s, job) && MappingOk(st, s)
    ensures JobOk(st, s, NextJob(capacity, st, s, job, ok))
  {
  }

  lemma QuietLeaderOk(capacity: nat, st: State, s: FileId, job: Job, ok: bool, observed: int)
    requires st.steps > 0 && IsQuiet(job.pc) && JobOk(st, s, job) && LeaderOk(job, observed)
    requires s in st.sources ==> observed <= st.sources[s].date
    ensures LeaderOk(NextJob(capacity, st, s, job, ok), observed)
  {
  }

  lemma SameTablesKeepJob(st: State, t: State, s: FileId, job: Job)
    requires t.sources == st.sources && t.previews == st.previews && t.mapping == st.mapping && t.owner == st.owner
    requires t.known == st.known && t.everMapped == st.everMapped && t.doubtful == st.doubtful
    requires JobOk(st, s, job)
    ensures JobOk(t, s, job)
  {
  }

  lemma OnlyJobKeepsRows(st: State, t: State, s: FileId)
    requires RowsOk(st) && MappingsOk(st) && OnlyJob(st, t, s)
    requires forall p :: Holding(st.flights[s], p) ==> Holding(t.flights[s], p)
    ensures RowsOk(t) && MappingsOk(t)
  {
    forall z | z in t.mapping ensures MappingOk(t, z) {
      assert MappingOk(st, z);
    }
    forall p | p in t.previews ensures RowOk(t, p) {
      assert RowOk(st, p);
    }
  }

  lemma OnlyJobKeepsJobs(st: State, t: State, s: FileId)
    requires JobsOk(st) && OnlyJob(st, t, s) && JobOk(t, s, t.flights[s])
    ensures JobsOk(t)
  {
    forall z | z in t.flights ensures JobOk(t, z, t.flights[z]) {
      if z != s {
        assert JobOk(st, z, st.flights[z]);
        SameTablesKeepJob(st, t, z, t.flights[z]);
      }
    }
  }

  lemma OnlyJobKeepsCaller(st: State, t: State, s: FileId, caller: Caller)
    requires OnlyJob(st, t, s) && CallerOk(st, caller)
    requires caller.source == s && caller.pc.Waiting? && caller.leader ==> LeaderOk(t.flights[s], caller.observed)
    ensures CallerOk(t, caller)
  {
  }

  lemma OnlyJobKeeps(st: State, t: State, s: FileId)
    requires Inv(st) && OnlyJob(st, t, s) && JobOk(t, s, t.flights[s])
    requires forall p :: Holding(st.flights[s], p) ==> Holding(t.flights[s], p)
    requires forall c :: c in st.callers && st.callers[c].source == s
                         && st.callers[c].pc.Waiting? && st.callers[c].leader
                         ==> LeaderOk(t.flights[s], st.callers[c].observed)
    ensures Inv(t)
  {
    OnlyJobKeepsJobs(st, t, s);
    OnlyJobKeepsRows(st, t, s);
    forall c | c in t.callers ensures CallerOk(t, t.callers[c]) {
      assert CallerOk(st, st.callers[c]);
      OnlyJobKeepsCaller(st, t, s, st.callers[c]);
    }
  }

  lemma QuietKeeps(capacity: nat, st: State, s: FileId, ok: bool)
    requires Inv(st) && st.steps > 0 && s in st.flights && IsQuiet(st.flights[s].pc)
    ensures Inv(StepQuiet(capacity, st, s, st.flights[s], ok))
  {
    var t := StepQuiet(capacity, st, s, st.flights[s], ok);
    var job := st.flights[s];
    assert JobOk(st, s, job);
    assert s in st.mapping ==> MappingOk(st, s);
    QuietJobOk(capacity, st, s, job, ok);
    SameTablesKeepJob(st, t, s, t.flights[s]);
    forall c | c in st.callers && st.callers[c].source == s && st.callers[c].pc.Waiting? && st.callers[c].leader
      ensures LeaderOk(t.flights[s], st.callers[c].observed)
    {
      assert CallerOk(st, st.callers[c]);
      QuietLeaderOk(capacity, st, s, job, ok, st.callers[c].observed);
    }
    OnlyJobKeeps(st, t, s);
  }

  function AfterFailedCommit(pc: JobPc): JobPc
    requires pc.Commit?
  {
    if pc.created then Discard(pc.previewId) else FreeActive(Fault(RenderFailed))
  }

  // The job of s has tried to store or to map something, has changed nothing, and fails.
  ghost predicate Fails(st: State, t: State, s: FileId)
    requires s in st.flights && s in t.flights
  {
    var job, next := st.flights[s], t.flights[s];
    || (job.pc.Store?
        && next == job.(pc := FreeActive(Fault(RenderFailed)), writes := next.writes, creates := next.creates)
        && next.writes + next.creates <= 1)
    || (job.pc.Commit? && next == job.(pc := AfterFailedCommit(job.pc)))
  }

  lemma FailingJobOk(st: State, t: State, s: FileId)
    requires OnlyJob(st, t, s) && Fails(st, t, s) && JobOk(st, s, st.flights[s])
    ensures JobOk(t, s, t.flights[s])
  {
  }

  lemma FailingKeeps(st: State, t: State, s: FileId)
    requires Inv(st) && OnlyJob(st, t, s) && Fails(st, t, s)
    ensures Inv(t)
  {
    hide JobOk, RowOk, MappingOk, CallerOk;
    assert JobOk(st, s, st.flights[s]);
    FailingJobOk(st, t, s);
    OnlyJobKeeps(st, t, s);
  }

  // The job of s has moved, and with it only what belongs to s.
  ghost predicate JobMoves(st: State, t: State, s: FileId) {
    && t.sources == st.sources && t.known == st.known && t.callers == st.callers
    && s in st.flights && s in t.flights && t.flights == st.flights[s := t.flights[s]]
    && (forall z :: z != s && z in st.known ==> Calm(st, t, z))
  }

  // What the callers of s rely on survives the move.
  ghost predicate CallersSafe(st: State, t: State, s: FileId)
    requires s in st.flights && s in t.flights
  {
    && (forall e :: HeldOk(st, s, e) ==> HeldOk(t, s, e))
    && (forall observed :: LeaderOk(st.flights[s], observed) ==> LeaderOk(t.flights[s], observed))
  }

  lemma MovesKeepMappings(st: State, t: State, s: FileId)
    requires IdsOk(st) && MappingsOk(st) && JobMoves(st, t, s) && MappingOk(t, s)
    requires t.mapping.Keys <= st.mapping.Keys + {s}
    ensures MappingsOk(t)
  {
    forall z | z in t.mapping ensures MappingOk(t, z) {
      if z != s {
        assert MappingOk(st, z);
        CalmKeepsMapping(st, t, z);
      }
    }
  }

  lemma MovesKeepJobs(st: State, t: State, s: FileId)
    requires IdsOk(st) && MappingsOk(st) && JobsOk(st) && JobMoves(st, t, s) && JobOk(t, s, t.flights[s])
    ensures JobsOk(t)
  {
    forall z | z in t.flights ensures JobOk(t, z, t.flights[z]) {
      if z != s {
        assert JobOk(st, z, st.flights[z]);
        assert MappingOk(st, z);
        CalmKeepsJob(st, t, z, t.flights[z]);
      }
    }
  }

  lemma SafeCallerOk(st: State, t: State, s: FileId, caller: Caller)
    requires JobMoves(st, t, s) && CallersSafe(st, t, s) && CallerOk(st, caller) && caller.source == s
    ensures CallerOk(t, caller)
  {
  }

  lemma MovesKeepCallers(st: State, t: State, s: FileId)
    requires CallersOk(st) && JobMoves(st, t, s) && CallersSafe(st, t, s)
    ensures CallersOk(t)
  {
    forall c | c in t.callers ensures CallerOk(t, t.callers[c]) {
      var caller := st.callers[c];
      assert CallerOk(st, caller);
      if caller.source == s {
        SafeCallerOk(st, t, s, caller);
      } else if HasLookedUp(caller.pc) {
        CalmKeepsCaller(st, t, caller);
      }
    }
  }

  lemma MovesKeep(st: State, t: State, s: FileId)
    requires Inv(st) && JobMoves(st, t, s) && CallersSafe(st, t, s)
    requires t.mapping.Keys <= st.mapping.Keys + {s}
    requires IdsOk(t) && RowsOk(t) && MappingOk(t, s) && JobOk(t, s, t.flights[s])
    ensures Inv(t)
  {
    MovesKeepMappings(st, t, s);
    MovesKeepJobs(st, t, s);
    MovesKeepCallers(st, t, s);
  }

  // The four steps of a job that change the tables.
  ghost predicate StoresInPlace(st: State, t: State, s: FileId, p: FileId, next: Job) {
    && s in st.flights && st.flights[s].pc.Store?
    && var job := st.flights[s];
       && job.pc.target == Some(p) && p in st.previews
       && (next == job.(pc := Commit(job.pc.date, p, false), writes := job.writes + 1)
           || next == job.(pc := FreeActive(Fault(RenderFailed)), writes := job.writes + 1))
       && t == st.(previews := st.previews[p := Some(Pixels(s, job.pc.version))], flights := st.flights[s := next])
  }

  ghost predicate StoresNew(st: State, t: State, s: FileId, p: FileId, next: Job) {
    && s in st.flights && st.flights[s].pc.Store? && IsFresh(st, p)
    && var job := st.flights[s];
       && job.pc.target == None
       && (next == job.(pc := Commit(job.pc.date, p, true), creates := job.creates + 1)
           || next == job.(pc := FreeActive(Fault(RenderFailed)), creates := job.creates + 1))
       && t == st.(previews := st.previews[p := Some(Pixels(s, job.pc.version))], owner := st.owner[p := s],
                   strays := if next.pc.Commit? then st.strays else st.strays + {p},
                   flights := st.flights[s := next])
  }

  // The mapping is updated, and the job is told so, or told otherwise.
  ghost predicate CommitsEntry(st: State, t: State, s: FileId, told: bool) {
    && s in st.flights && st.flights[s].pc.Commit?
    && var job, pc := st.flights[s], st.flights[s].pc;
       var entry := Entry(pc.previewId, pc.date);
       var next := if told then job.(pc := FreeActive(Ready(entry)), doubted := false)
                   else job.(pc := AfterFailedCommit(pc), doubted := true);
       t == st.(mapping := st.mapping[s := entry], everMapped := st.everMapped + {pc.previewId},
                doubtful := if told then st.doubtful else st.doubtful + {pc.previewId},
                flights := st.flights[s := next])
  }

  ghost predicate Discards(st: State, t: State, s: FileId, p: FileId, happened: bool) {
    && s in st.flights && st.flights[s].pc == Discard(p)
    && var next := st.flights[s].(pc := FreeActive(Fault(RenderFailed)));
       t == if happened then st.(previews := st.previews - {p}, flights := st.flights[s := next])
            else st.(strays := st.strays + {p}, flights := st.flights[s := next])
  }

  // What the tables and the job of s satisfy before and after such a step.
  ghost predicate HomeOk(st: State, s: FileId) {
    IdsOk(st) && MappingOk(st, s) && s in st.flights && JobOk(st, s, st.flights[s])
  }

  lemma StoreInPlaceHome(st: State, t: State, s: FileId, p: FileId, next: Job)
    requires HomeOk(st, s) && StoresInPlace(st, t, s, p, next)
    ensures HomeOk(t, s)
  {
  }

  lemma StoreInPlaceMoves(st: State, t: State, s: FileId, p: FileId, next: Job)
    requires HomeOk(st, s) && StoresInPlace(st, t, s, p, next)
    ensures JobMoves(st, t, s)
  {
  }

  lemma StoreInPlaceSafe(st: State, t: State, s: FileId, p: FileId, next: Job)
    requires HomeOk(st, s) && StoresInPlace(st, t, s, p, next)
    ensures s in t.flights && CallersSafe(st, t, s)
  {
    forall e | HeldOk(st, s, e) ensures HeldOk(t, s, e) {
      assert e.date <= st.mapping[s].date <= st.flights[s].pc.date <= st.flights[s].pc.version;
    }
  }

  lemma StoreNewHome(st: State, t: State, s: FileId, p: FileId, next: Job)
    requires HomeOk(st, s) && StoresNew(st, t, s, p, next)
    ensures HomeOk(t, s)
  {
  }

  lemma StoreNewMoves(st: State, t: State, s: FileId, p: FileId, next: Job)
    requires HomeOk(st, s) && StoresNew(st, t, s, p, next)
    ensures JobMoves(st, t, s)
  {
  }

  lemma StoreNewSafe(st: State, t: State, s: FileId, p: FileId, next: Job)
    requires HomeOk(st, s) && StoresNew(st, t, s, p, next)
    ensures s in t.flights && CallersSafe(st, t, s)
  {
  }

  lemma CommitHome(st: State, t: State, s: FileId, told: bool)
    requires HomeOk(st, s) && CommitsEntry(st, t, s, told)
    ensures HomeOk(t, s)
  {
  }

  lemma CommitMoves(st: State, t: State, s: FileId, told: bool)
    requires HomeOk(st, s) && CommitsEntry(st, t, s, told)
    ensures JobMoves(st, t, s)
  {
  }

  lemma CommitSafe(st: State, t: State, s: FileId, told: bool)
    requires HomeOk(st, s) && CommitsEntry(st, t, s, told)
    ensures s in t.flights && CallersSafe(st, t, s)
  {
  }

  lemma DiscardHome(st: State, t: State, s: FileId, p: FileId, happened: bool)
    requires HomeOk(st, s) && Discards(st, t, s, p, happened)
    ensures HomeOk(t, s)
  {
  }

  lemma DiscardMoves(st: State, t: State, s: FileId, p: FileId, happened: bool)
    requires HomeOk(st, s) && Discards(st, t, s, p, happened)
    ensures JobMoves(st, t, s) && CallersSafe(st, t, s)
  {
  }

  lemma DiscardIs(capacity: nat, st: State, s: FileId, ok: bool, applied: bool, newId: FileId)
    requires st.steps > 0 && s in st.flights && st.flights[s].pc.Discard?
    ensures var t := StepJob(capacity, st, s, st.flights[s], ok, applied, newId);
            Discards(st, t, s, st.flights[s].pc.previewId, ok || applied)
  {
  }

  lemma CommitIs(capacity: nat, st: State, s: FileId, ok: bool, applied: bool, newId: FileId)
    requires st.steps > 0 && s in st.flights && st.flights[s].pc.Commit? && !st.flights[s].doubted
    requires ok || applied
    ensures CommitsEntry(st, StepJob(capacity, st, s, st.flights[s], ok, applied, newId), s, ok)
  {
  }

  lemma StoreInPlaceRows(st: State, t: State, s: FileId, p: FileId, next: Job)
    requires RowsOk(st) && StoresInPlace(st, t, s, p, next)
    ensures RowsOk(t)
  {
    forall q | q in t.previews ensures RowOk(t, q) {
      assert RowOk(st, q);
    }
  }

  lemma StoreNewRows(st: State, t: State, s: FileId, p: FileId, next: Job)
    requires RowsOk(st) && StoresNew(st, t, s, p, next)
    ensures RowsOk(t)
  {
    forall q | q in t.previews ensures RowOk(t, q) {
      assert q != p ==> RowOk(st, q);
    }
  }

  lemma CommitRows(st: State, t: State, s: FileId, told: bool)
    requires RowsOk(st) && HomeOk(st, s) && CommitsEntry(st, t, s, told)
    ensures RowsOk(t)
  {
    forall q | q in t.previews ensures RowOk(t, q) {
      assert RowOk(st, q);
    }
  }

  lemma DiscardRows(st: State, t: State, s: FileId, p: FileId, happened: bool)
    requires RowsOk(st) && Discards(st, t, s, p, happened)
    ensures RowsOk(t)
  {
    forall q | q in t.previews ensures RowOk(t, q) {
      assert RowOk(st, q);
    }
  }

  // The flight lands, and its waiters receive the verdict.
  lemma PublishCaller(st: State, t: State, s: FileId, caller: Caller, landed: Caller)
    requires CallerOk(st, caller) && s in st.flights && st.flights[s].pc.Publish?
    requires JobOk(st, s, st.flights[s]) && MappingOk(st, s)
    requires t.sources == st.sources && t.previews == st.previews && t.mapping == st.mapping && t.owner == st.owner
    requires t.known == st.known && t.flights == st.flights - {s}
    requires landed == if caller.source == s && caller.pc.Waiting?
                       then caller.(pc := Received(st.flights[s].pc.verdict, st.flights[s].lookedUpAt)) else caller
    ensures CallerOk(t, landed)
  {
  }

  lemma PublishKeeps(capacity: nat, st: State, s: FileId, ok: bool, applied: bool, newId: FileId)
    requires Inv(st) && st.steps > 0 && s in st.flights && st.flights[s].pc.Publish?
    ensures Inv(StepJob(capacity, st, s, st.flights[s], ok, applied, newId))
  {
    var t := StepJob(capacity, st, s, st.flights[s], ok, applied, newId);
    assert JobOk(st, s, st.flights[s]);
    assert s in st.mapping ==> MappingOk(st, s);
    forall c | c in t.callers ensures CallerOk(t, t.callers[c]) {
      PublishCaller(st, t, s, st.callers[c], t.callers[c]);
    }
    forall z | z in t.flights ensures JobOk(t, z, t.flights[z]) {
      assert JobOk(st, z, st.flights[z]);
      SameTablesKeepJob(st, t, z, t.flights[z]);
    }
    forall z | z in t.mapping ensures MappingOk(t, z) {
      assert MappingOk(st, z);
    }
    forall p | p in t.previews ensures RowOk(t, p) {
      assert RowOk(st, p);
    }
  }

  lemma StoreInPlaceKeeps(st: State, t: State, s: FileId, p: FileId, next: Job)
    requires Inv(st) && StoresInPlace(st, t, s, p, next)
    ensures Inv(t)
  {
    assert JobOk(st, s, st.flights[s]);
    assert s in st.mapping ==> MappingOk(st, s);
    StoreInPlaceHome(st, t, s, p, next);
    StoreInPlaceMoves(st, t, s, p, next);
    StoreInPlaceSafe(st, t, s, p, next);
    StoreInPlaceRows(st, t, s, p, next);
    MovesKeep(st, t, s);
  }

  lemma StoreNewKeeps(st: State, t: State, s: FileId, p: FileId, next: Job)
    requires Inv(st) && StoresNew(st, t, s, p, next)
    ensures Inv(t)
  {
    assert JobOk(st, s, st.flights[s]);
    assert s in st.mapping ==> MappingOk(st, s);
    StoreNewHome(st, t, s, p, next);
    StoreNewMoves(st, t, s, p, next);
    StoreNewSafe(st, t, s, p, next);
    StoreNewRows(st, t, s, p, next);
    MovesKeep(st, t, s);
  }

  // The job has stored nothing and fails.
  ghost predicate StoresNothing(st: State, t: State, s: FileId) {
    && s in st.flights && s in t.flights
    && var job, next := st.flights[s], t.flights[s];
       && job.pc.Store? && next.writes + next.creates <= 1
       && next == job.(pc := FreeActive(Fault(RenderFailed)), writes := next.writes, creates := next.creates)
       && t == st.(flights := st.flights[s := next])
  }

  lemma StoreInPlaceIs(st: State, s: FileId, p: FileId, ok: bool, applied: bool, newId: FileId)
    requires s in st.flights && st.flights[s].pc.Store? && LinearOk(st.flights[s]) && st.flights[s].pc.target == Some(p)
    ensures var t := StepStore(st, s, st.flights[s], ok, applied, newId);
            StoresNothing(st, t, s) || (s in t.flights && StoresInPlace(st, t, s, p, t.flights[s]))
  {
  }

  lemma StoreNewIs(st: State, s: FileId, ok: bool, applied: bool, newId: FileId)
    requires s in st.flights && st.flights[s].pc.Store? && LinearOk(st.flights[s]) && st.flights[s].pc.target == None
    ensures var t := StepStore(st, s, st.flights[s], ok, applied, newId);
            t == st || StoresNothing(st, t, s) || (s in t.flights && StoresNew(st, t, s, newId, t.flights[s]))
  {
  }

  lemma StoreNothingKeeps(st: State, t: State, s: FileId)
    requires Inv(st) && StoresNothing(st, t, s)
    ensures Inv(t)
  {
    FailingKeeps(st, t, s);
  }

  lemma StoreKeeps(st: State, s: FileId, ok: bool, applied: bool, newId: FileId)
    requires Inv(st) && s in st.flights && st.flights[s].pc.Store?
    ensures Inv(StepStore(st, s, st.flights[s], ok, applied, newId))
  {
    var job := st.flights[s];
    var t := StepStore(st, s, job, ok, applied, newId);
    assert JobOk(st, s, job);
    match job.pc.target {
      case Some(p) =>
        StoreInPlaceIs(st, s, p, ok, applied, newId);
        if StoresNothing(st, t, s) {
          StoreNothingKeeps(st, t, s);
        } else {
          StoreInPlaceKeeps(st, t, s, p, t.flights[s]);
        }
      case None =>
        StoreNewIs(st, s, ok, applied, newId);
        if t == st {
        } else if StoresNothing(st, t, s) {
          StoreNothingKeeps(st, t, s);
        } else {
          StoreNewKeeps(st, t, s, newId, t.flights[s]);
        }
    }
  }

  lemma CommitKeeps(capacity: nat, st: State, s: FileId, ok: bool, applied: bool, newId: FileId)
    requires Inv(st) && st.steps > 0 && s in st.flights && st.flights[s].pc.Commit?
    ensures Inv(StepJob(capacity, st, s, st.flights[s], ok, applied, newId))
  {
    hide RowOk, CallerOk;
    var t := StepJob(capacity, st, s, st.flights[s], ok, applied, newId);
    assert JobOk(st, s, st.flights[s]);
    assert s in st.mapping ==> MappingOk(st, s);
    if !ok && !applied {
      FailingKeeps(st, t, s);
    } else {
      CommitIs(capacity, st, s, ok, applied, newId);
      CommitHome(st, t, s, ok);
      CommitMoves(st, t, s, ok);
      CommitSafe(st, t, s, ok);
      CommitRows(st, t, s, ok);
      MovesKeep(st, t, s);
    }
  }

  lemma DiscardKeeps(capacity: nat, st: State, s: FileId, ok: bool, applied: bool, newId: FileId)
    requires Inv(st) && st.steps > 0 && s in st.flights && st.flights[s].pc.Discard?
    ensures Inv(StepJob(capacity, st, s, st.flights[s], ok, applied, newId))
  {
    hide StepJob, RowOk;
    var p := st.flights[s].pc.previewId;
    var t := StepJob(capacity, st, s, st.flights[s], ok, applied, newId);
    assert JobOk(st, s, st.flights[s]);
    assert s in st.mapping ==> MappingOk(st, s);
    DiscardIs(capacity, st, s, ok, applied, newId);
    DiscardHome(st, t, s, p, ok || applied);
    DiscardMoves(st, t, s, p, ok || applied);
    DiscardRows(st, t, s, p, ok || applied);
    MovesKeep(st, t, s);
  }

  lemma WorkKeeps(capacity: nat, st: State, s: FileId, ok: bool, applied: bool, newId: FileId)
    requires Inv(st) && st.steps > 0 && s in st.flights
    ensures Inv(StepJob(capacity, st, s, st.flights[s], ok, applied, newId))
  {
    hide Inv, StepStore;
    match st.flights[s].pc
    case Store(_, _, _) => StoreKeeps(st, s, ok, applied, newId);
    case Commit(_, _, _) => CommitKeeps(capacity, st, s, ok, applied, newId);
    case Discard(_) => DiscardKeeps(capacity, st, s, ok, applied, newId);
    case Publish(_) => PublishKeeps(capacity, st, s, ok, applied, newId);
    case _ => QuietKeeps(capacity, st, s, ok);
  }

  lemma CountingKeeps(st: State, n: nat)
    requires Inv(st)
    ensures Inv(st.(steps := n))
  {
    OutsideKeeps(st, st.(steps := n));
  }

  lemma WorkStepKeeps(capacity: nat, st: State, s: FileId, ok: bool, applied: bool, newId: FileId)
    requires Inv(st)
    ensures Inv(Step(capacity, st, Work(s, ok, applied, newId)))
  {
    hide Step, StepJob, Inv;
    CountingKeeps(st, st.steps + 1);
    WorkStepIs(capacity, st, Work(s, ok, applied, newId));
    if s in st.flights {
      WorkKeeps(capacity, st.(steps := st.steps + 1), s, ok, applied, newId);
    }
  }

  lemma OutsideStepKeeps(capacity: nat, st: State, e: Event)
    requires Inv(st) && IsOutside(e)
    ensures Inv(Step(capacity, st, e))
  {
    OutsideIsCalm(capacity, st, e);
    OutsideKeeps(st, Step(capacity, st, e));
  }

  lemma ServeNobody(capacity: nat, st: State, c: nat, ok: bool, allowed: bool)
    requires c !in st.callers
    ensures Step(capacity, st, Serve(c, ok, allowed)) == st.(steps := st.steps + 1)
  {
  }

  lemma ServeStepKeeps(capacity: nat, st: State, c: nat, ok: bool, allowed: bool)
    requires Inv(st)
    ensures Inv(Step(capacity, st, Serve(c, ok, allowed)))
  {
    if c in st.callers {
      ServeKeeps(capacity, st, c, ok, allowed);
    } else {
      ServeNobody(capacity, st, c, ok, allowed);
      CountingKeeps(st, st.steps + 1);
    }
  }

  lemma StepKeeps(capacity: nat, st: State, e: Event)
    requires Inv(st)
    ensures Inv(Step(capacity, st, e))
  {
    hide Inv, Step;
    match e
    case Arrive(c, s, ifNoneMatch) => ArriveKeeps(capacity, st, c, s, ifNoneMatch);
    case GiveUp(c) => GiveUpKeeps(capacity, st, c);
    case Serve(c, ok, allowed) => ServeStepKeeps(capacity, st, c, ok, allowed);
    case Work(s, ok, applied, newId) => WorkStepKeeps(capacity, st, s, ok, applied, newId);
    case _ => OutsideStepKeeps(capacity, st, e);
  }

  lemma {:induction false} Reachable(capacity: nat, evs: seq<Event>)
    ensures Inv(Exec(capacity, evs))
  {
    if evs == [] {
      InitOk();
    } else {
      Reachable(capacity, evs[..|evs| - 1]);
      StepKeeps(capacity, Exec(capacity, evs[..|evs| - 1]), evs[|evs| - 1]);
    }
  }
}
