/** What every request for a preview is answered, and what every render job makes of what it
    finds, on every run, in terms of what their own calls have seen. */
module PreviewAnswers {
  import opened Wrappers
  import opened PreviewProtocol
  import opened PreviewAdmission
  import PreviewInvariant

  // Event k is the next step of request c, which has no response yet.
  ghost predicate Serves(capacity: nat, evs: seq<Event>, k: nat, c: nat, ok: bool, allowed: bool)
    requires k < |evs|
  {
    && evs[k] == Serve(c, ok, allowed)
    && c in At(capacity, evs, k).callers && !At(capacity, evs, k).callers[c].pc.Replied?
  }

  // What a request at this point is answered when it makes its next call in this state.
  ghost predicate GivesAt(st: State, caller: Caller, ok: bool, allowed: bool, response: Response) {
    match caller.pc
    case LookUp =>
      if !ok then response == Refused(Upstream)
      else caller.source !in st.sources && response == Refused(NotFound)
    case Authorize(source) =>
      if !ok then response == Refused(Upstream)
      else if !allowed then response == Refused(NotAuthorized)
      else if !source.previewable then response == Refused(Unsupported)
      else caller.ifNoneMatch == Some(source.date) && response == NotModified(source.date)
    case FindCached => !ok && response == Refused(Upstream)
    case ReadCached(entry) =>
      if !ok then response == Refused(Upstream)
      else HasPixels(st, entry.previewId) && response == Body(caller.observed, st.previews[entry.previewId].value)
    case Received(verdict, _) =>
      (match verdict
       case Fault(error) => response == Refused(error)
       case Ready(entry) => entry.date < caller.observed && response == Refused(StaleSharedRender))
    case ReadCommitted(entry) =>
      if ok && HasPixels(st, entry.previewId)
      then response == Body(entry.date, st.previews[entry.previewId].value)
      else response == Refused(Upstream)
    case _ => false
  }

  /** The ways in which step k gives request c this response.
      - a body: from the cache if the mapping had the date observed, else from the flight;
      - not modified: to an authorized request for a previewable document of that very date;
      - not found: if the document did not exist when the request looked it up;
      - not authorized: if the authorization service said so;
      - unsupported: if the document was not previewable;
      - stale: if the flight's picture predates the date observed;
      - an upstream error: if a call failed, or the committed picture could not be read;
      - cancelled: if the request gave up while waiting;
      - or whatever error the flight failed with. */
  ghost predicate Gives(capacity: nat, evs: seq<Event>, k: nat, c: nat, response: Response)
    requires k < |evs|
  {
    var st := At(capacity, evs, k);
    && c in st.callers
    && var caller := st.callers[c];
       match evs[k]
       case GiveUp(d) => d == c && (caller.pc.Waiting? || caller.pc.Received?) && response == Refused(Cancelled)
       case Serve(d, ok, allowed) =>
         d == c && GivesAt(st, caller, ok, allowed, response)
       case _ => false
  }

  // A step of the request itself, on nothing but its own place in the queue of its calls.
  lemma ServeIs(capacity: nat, st: State, c: nat, ok: bool, allowed: bool)
    requires c in st.callers
    ensures var t := Step(capacity, st, Serve(c, ok, allowed));
            c in t.callers && t.callers[c] == NextCaller(st.(steps := st.steps + 1), st.callers[c], ok, allowed)
  {
    hide StepJob, NextCaller;
  }

  /** A step responds exactly if it is one of those ways, and in that way. */
  lemma StepGives(capacity: nat, evs: seq<Event>, k: nat, c: nat, response: Response)
    requires k < |evs| && c in At(capacity, evs, k).callers && !At(capacity, evs, k).callers[c].pc.Replied?
    ensures c in At(capacity, evs, k + 1).callers
    ensures At(capacity, evs, k + 1).callers[c].pc == Replied(response) <==> Gives(capacity, evs, k, c, response)
  {
    hide Exec;
    NextState(capacity, evs, k);
    var st, e := At(capacity, evs, k), evs[k];
    if e.Serve? && e.c == c {
      ServedGives(capacity, evs, k, c, response);
    } else if e.GiveUp? && e.c == c {
      GivingUpGives(capacity, evs, k, c, response);
    } else {
      OthersGiveNothing(capacity, st, e, c);
    }
  }

  lemma NextGives(st: State, u: State, caller: Caller, ok: bool, allowed: bool, response: Response)
    requires u == st.(steps := st.steps + 1) && !caller.pc.Replied?
    ensures NextCaller(u, caller, ok, allowed).pc == Replied(response) <==> GivesAt(st, caller, ok, allowed, response)
  {
    match caller.pc
    case LookUp =>
    case Authorize(_) =>
    case _ =>
  }

  lemma ServedGives(capacity: nat, evs: seq<Event>, k: nat, c: nat, response: Response)
    requires k < |evs| && c in At(capacity, evs, k).callers && !At(capacity, evs, k).callers[c].pc.Replied?
    requires evs[k].Serve? && evs[k].c == c
    ensures c in At(capacity, evs, k + 1).callers
    ensures At(capacity, evs, k + 1).callers[c].pc == Replied(response) <==> Gives(capacity, evs, k, c, response)
  {
    hide Exec, Step, GivesAt, NextCaller;
    NextState(capacity, evs, k);
    var st := At(capacity, evs, k);
    ServeIs(capacity, st, c, evs[k].ok, evs[k].allowed);
    NextGives(st, st.(steps := st.steps + 1), st.callers[c], evs[k].ok, evs[k].allowed, response);
  }

  lemma GivingUpGives(capacity: nat, evs: seq<Event>, k: nat, c: nat, response: Response)
    requires k < |evs| && c in At(capacity, evs, k).callers && !At(capacity, evs, k).callers[c].pc.Replied?
    requires evs[k] == GiveUp(c)
    ensures c in At(capacity, evs, k + 1).callers
    ensures At(capacity, evs, k + 1).callers[c].pc == Replied(response) <==> Gives(capacity, evs, k, c, response)
  {
    hide Exec, StepJob, StepCaller;
    NextState(capacity, evs, k);
  }

  // Nobody else answers for a request; a flight that lands hands its verdict over.
  lemma OthersGiveNothing(capacity: nat, st: State, e: Event, c: nat)
    requires c in st.callers && !((e.Serve? || e.GiveUp?) && e.c == c)
    ensures var t := Step(capacity, st, e);
            && c in t.callers
            && (t.callers[c] == st.callers[c]
                || (&& e.Work? && e.s == st.callers[c].source && st.callers[c].pc.Waiting?
                    && e.s in st.flights && st.flights[e.s].pc.Publish?
                    && var job := st.flights[e.s];
                       t.callers[c] == st.callers[c].(pc := Received(job.pc.verdict, job.lookedUpAt))))
  {
    hide Step, StepJob;
    if e.Work? {
      WorkStepIs(capacity, st, e);
      if e.s in st.flights {
        WorkGivesNothing(capacity, st.(steps := st.steps + 1), e, c);
      }
    } else {
      OutsideGivesNothing(capacity, st, e, c);
    }
  }

  lemma OutsideGivesNothing(capacity: nat, st: State, e: Event, c: nat)
    requires !e.Work? && c in st.callers && !((e.Serve? || e.GiveUp?) && e.c == c)
    ensures var t := Step(capacity, st, e); c in t.callers && t.callers[c] == st.callers[c]
  {
    hide StepJob, NextCaller;
    if e.Serve? {
    } else {
    }
  }

  lemma WorkGivesNothing(capacity: nat, u: State, e: Event, c: nat)
    requires u.steps > 0 && e.Work? && e.s in u.flights && c in u.callers
    ensures var r, job := StepJob(capacity, u, e.s, u.flights[e.s], e.ok, e.applied, e.newId), u.flights[e.s];
            && c in r.callers
            && r.callers[c] == (if job.pc.Publish? && u.callers[c].source == e.s && u.callers[c].pc.Waiting?
                                then u.callers[c].(pc := Received(job.pc.verdict, job.lookedUpAt)) else u.callers[c])
  {
    hide StepStore, NextJob, SlotsTaken, PermitsTaken;
    if u.flights[e.s].pc.Store? {
      StoreGivesNothing(u, e);
    }
  }

  lemma StoreGivesNothing(u: State, e: Event)
    requires e.Work? && e.s in u.flights && u.flights[e.s].pc.Store?
    ensures StepStore(u, e.s, u.flights[e.s], e.ok, e.applied, e.newId).callers == u.callers
  {
    if u.flights[e.s].pc.target.Some? {
    } else {
    }
  }

  lemma RepliesStand(capacity: nat, st: State, e: Event, c: nat)
    requires c in st.callers && st.callers[c].pc.Replied?
    ensures var t := Step(capacity, st, e); c in t.callers && t.callers[c] == st.callers[c]
  {
    hide Step, StepJob;
    if e.Serve? && e.c == c {
      ServeIs(capacity, st, c, e.ok, e.allowed);
    } else if e.GiveUp? && e.c == c {
      GiveUpStands(capacity, st, c);
    } else {
      OthersGiveNothing(capacity, st, e, c);
    }
  }

  lemma GiveUpStands(capacity: nat, st: State, c: nat)
    requires c in st.callers && st.callers[c].pc.Replied?
    ensures var t := Step(capacity, st, GiveUp(c)); c in t.callers && t.callers[c] == st.callers[c]
  {
    hide StepJob, StepCaller;
  }

  lemma NotYetReplied(capacity: nat, st: State, e: Event, c: nat)
    requires c !in st.callers && c in Step(capacity, st, e).callers
    ensures Step(capacity, st, e).callers[c].pc.LookUp?
  {
    hide Step, StepJob;
    if e.Work? {
      WorkStepIs(capacity, st, e);
      if e.s in st.flights {
        NoNewCallers(capacity, st.(steps := st.steps + 1), e);
      }
    } else {
      NewCallersLookUp(capacity, st, e, c);
    }
  }

  lemma NewCallersLookUp(capacity: nat, st: State, e: Event, c: nat)
    requires !e.Work? && c !in st.callers && c in Step(capacity, st, e).callers
    ensures Step(capacity, st, e).callers[c].pc.LookUp?
  {
    hide StepJob, NextCaller;
    if e.Serve? {
    } else {
    }
  }

  lemma NoNewCallers(capacity: nat, u: State, e: Event)
    requires u.steps > 0 && e.Work? && e.s in u.flights
    ensures StepJob(capacity, u, e.s, u.flights[e.s], e.ok, e.applied, e.newId).callers.Keys == u.callers.Keys
  {
    hide StepStore, NextJob, SlotsTaken, PermitsTaken;
    if u.flights[e.s].pc.Store? {
      StoreGivesNothing(u, e);
    }
  }

  /** Where a step that gives no response takes the request, with what it has just seen. */
  lemma StepsLead(capacity: nat, evs: seq<Event>, k: nat, c: nat, ok: bool, allowed: bool)
    requires k < |evs| && Serves(capacity, evs, k, c, ok, allowed)
    requires c in At(capacity, evs, k + 1).callers && !At(capacity, evs, k + 1).callers[c].pc.Replied?
    ensures var st, t := At(capacity, evs, k), At(capacity, evs, k + 1);
            var caller, next := st.callers[c], t.callers[c];
            && next.source == caller.source && next.ifNoneMatch == caller.ifNoneMatch
            && (!caller.pc.LookUp? ==> next.observed == caller.observed && next.observedAt == caller.observedAt)
            && match caller.pc
               case LookUp =>
                 && caller.source in st.sources && next.pc == Authorize(st.sources[caller.source])
                 && next.observed == st.sources[caller.source].date && next.observedAt == k
               case Authorize(_) => next.pc == FindCached
               case FindCached =>
                 if caller.source in st.mapping && st.mapping[caller.source].date == caller.observed
                 then next.pc == ReadCached(st.mapping[caller.source]) else next.pc == Join
               case ReadCached(_) => next.pc == Join
               case Join =>
                 && next.pc == Waiting && caller.source in t.flights
                 && (caller.source in st.flights ==> t.flights == st.flights)
                 && (caller.source !in st.flights ==> t.flights[caller.source].pc == Admit)
               case Received(verdict, _) => verdict.Ready? && next.pc == ReadCommitted(verdict.entry)
               case _ => next == caller
  {
    hide Exec, StepJob;
    NextState(capacity, evs, k);
  }

  // A step gives a response to a request that has none.
  ghost predicate GivesFirst(capacity: nat, evs: seq<Event>, k: nat, c: nat, response: Response)
    requires k < |evs|
  {
    && c in At(capacity, evs, k).callers && !At(capacity, evs, k).callers[c].pc.Replied?
    && Gives(capacity, evs, k, c, response)
  }

  /** The table of responses: a request has a response exactly if one of its steps gave it in
      one of the ways listed with Gives. */
  lemma {:induction false} ResponsesAreGiven(capacity: nat, evs: seq<Event>, n: nat, c: nat, response: Response)
    requires n <= |evs|
    ensures c in At(capacity, evs, n).callers && At(capacity, evs, n).callers[c].pc == Replied(response)
       <==> exists k :: 0 <= k < n && GivesFirst(capacity, evs, k, c, response)
    decreases n
  {
    hide Exec, Step, Gives;
    if n == 0 {
      NobodyAtFirst(capacity, evs);
    } else {
      ResponsesAreGiven(capacity, evs, n - 1, c, response);
      NextState(capacity, evs, n - 1);
      var st, e := At(capacity, evs, n - 1), evs[n - 1];
      if c !in st.callers {
        if c in At(capacity, evs, n).callers {
          NotYetReplied(capacity, st, e, c);
        }
        NoGiftBefore(capacity, evs, n, c, response);
      } else if st.callers[c].pc.Replied? {
        RepliesStand(capacity, st, e, c);
        LastGift(capacity, evs, n, c, response);
      } else {
        StepGives(capacity, evs, n - 1, c, response);
        LastGift(capacity, evs, n, c, response);
      }
    }
  }

  lemma NobodyAtFirst(capacity: nat, evs: seq<Event>)
    ensures At(capacity, evs, 0).callers == map[]
  {
  }

  lemma LastGift(capacity: nat, evs: seq<Event>, n: nat, c: nat, response: Response)
    requires 0 < n <= |evs|
    ensures (exists k :: 0 <= k < n && GivesFirst(capacity, evs, k, c, response))
       <==> (exists k :: 0 <= k < n - 1 && GivesFirst(capacity, evs, k, c, response))
            || GivesFirst(capacity, evs, n - 1, c, response)
  {
    hide GivesFirst;
  }

  lemma NoGiftBefore(capacity: nat, evs: seq<Event>, n: nat, c: nat, response: Response)
    requires 0 < n <= |evs| && c !in At(capacity, evs, n - 1).callers
    ensures (exists k :: 0 <= k < n && GivesFirst(capacity, evs, k, c, response))
       <==> (exists k :: 0 <= k < n - 1 && GivesFirst(capacity, evs, k, c, response))
  {
    hide Gives;
    LastGift(capacity, evs, n, c, response);
  }

  // The flight that c waits for lands at event k with this verdict.
  ghost predicate Hands(capacity: nat, evs: seq<Event>, k: nat, c: nat, verdict: Verdict)
    requires k < |evs|
  {
    var st := At(capacity, evs, k);
    && c in st.callers && st.callers[c].pc.Waiting?
    && evs[k].Work? && evs[k].s == st.callers[c].source
    && evs[k].s in st.flights && st.flights[evs[k].s].pc == Publish(verdict)
  }

  // At instant n the request holds the verdict, or has been answered accordingly.
  ghost predicate Follows(capacity: nat, evs: seq<Event>, k: nat, n: nat, c: nat, error: Error)
    requires k < n <= |evs|
  {
    && c in At(capacity, evs, n).callers
    && var pc := At(capacity, evs, n).callers[c].pc;
       || (pc.Received? && pc.verdict == Fault(error))
       || pc == Replied(Refused(error))
       || (pc == Replied(Refused(Cancelled)) && exists m :: k < m < n && evs[m] == GiveUp(c))
  }

  /** A request whose flight fails is refused with the very error the flight failed with, unless
      it gives up itself. */
  lemma {:induction false} FlightErrorsReachTheirWaiters(capacity: nat, evs: seq<Event>, k: nat, n: nat, c: nat,
                                                         error: Error)
    requires k < n <= |evs| && Hands(capacity, evs, k, c, Fault(error))
    ensures Follows(capacity, evs, k, n, c, error)
    decreases n
  {
    hide Exec, Step;
    NextState(capacity, evs, n - 1);
    var st, e := At(capacity, evs, n - 1), evs[n - 1];
    if n == k + 1 {
      HandedOver(capacity, st, e, c);
    } else {
      FlightErrorsReachTheirWaiters(capacity, evs, k, n - 1, c, error);
      if st.callers[c].pc.Replied? {
        RepliesStand(capacity, st, e, c);
      } else if e.Serve? && e.c == c {
        ServeIs(capacity, st, c, e.ok, e.allowed);
      } else if e.GiveUp? && e.c == c {
        GivesUp(capacity, st, c);
      } else {
        OthersGiveNothing(capacity, st, e, c);
      }
    }
  }

  lemma GivesUp(capacity: nat, st: State, c: nat)
    requires c in st.callers && st.callers[c].pc.Received?
    ensures var t := Step(capacity, st, GiveUp(c)); c in t.callers && t.callers[c].pc == Replied(Refused(Cancelled))
  {
    hide StepJob, StepCaller;
  }

  lemma HandedOver(capacity: nat, st: State, e: Event, c: nat)
    requires e.Work? && c in st.callers && st.callers[c].pc.Waiting? && e.s == st.callers[c].source
    requires e.s in st.flights && st.flights[e.s].pc.Publish?
    ensures var t := Step(capacity, st, e);
            c in t.callers && t.callers[c].pc == Received(st.flights[e.s].pc.verdict, st.flights[e.s].lookedUpAt)
  {
    hide Step, StepJob;
    WorkStepIs(capacity, st, e);
    WorkGivesNothing(capacity, st.(steps := st.steps + 1), e, c);
  }

  // The job goes from here to there in one step, and this is what the tables then hold.
  ghost predicate Becomes(t: State, s: FileId, pc: JobPc, previews: map<FileId, Option<Pixels>>,
                          mapping: map<FileId, Entry>)
  {
    s in t.flights && t.flights[s].pc == pc && t.previews == previews && t.mapping == mapping
  }

  /** A job that asks to be admitted is refused at once exactly if the jobs admitted and not
      finished are two more than the waiting capacity; one that has been admitted runs once
      fewer than two others do, or is refused if its time is up before. */
  lemma {:induction false} AdmissionAnswers(capacity: nat, evs: seq<Event>, k: nat, s: FileId, ok: bool, applied: bool,
                                            newId: FileId)
    requires k < |evs| && evs[k] == Work(s, ok, applied, newId) && s in At(capacity, evs, k).flights
    ensures var st, t := At(capacity, evs, k), At(capacity, evs, k + 1);
            && (st.flights[s].pc.Admit? ==>
                  Becomes(t, s, if |SlotHolders(st.flights)| < 2 + capacity then Activate
                                else Publish(Fault(AdmissionFull)),
                          st.previews, st.mapping))
            && (st.flights[s].pc.Activate? ==>
                  Becomes(t, s, if !ok then FreeSlot(Fault(AdmissionFull))
                                else if |PermitHolders(st.flights)| < 2 then LookUpAgain else Activate,
                          st.previews, st.mapping))
  {
    hide Exec, Step, StepJob;
    NextState(capacity, evs, k);
    AlwaysConserved(capacity, evs[..k]);
    if PreviewInvariant.IsQuiet(At(capacity, evs, k).flights[s].pc) {
      PreviewInvariant.QuietIs(capacity, At(capacity, evs, k), s, ok, applied, newId);
    }
  }

  /** The lookups of a job: the errors they end it with, and where what they find takes it. */
  lemma LookupAnswers(capacity: nat, evs: seq<Event>, k: nat, s: FileId, ok: bool, applied: bool, newId: FileId)
    requires k < |evs| && evs[k] == Work(s, ok, applied, newId) && s in At(capacity, evs, k).flights
    ensures var st, t := At(capacity, evs, k), At(capacity, evs, k + 1);
            match st.flights[s].pc
            case LookUpAgain =>
              Becomes(t, s, if !ok then FreeActive(Fault(Upstream))
                            else if s !in st.sources then FreeActive(Fault(NotFound))
                            else FindTarget(st.sources[s].date), st.previews, st.mapping)
            case FindTarget(date) =>
              Becomes(t, s, if !ok then FreeActive(Fault(Upstream))
                            else if s !in st.mapping then ReadSource(date, None)
                            else if st.mapping[s].date == date then Recheck(date, st.mapping[s])
                            else AskMetadata(date, st.mapping[s]), st.previews, st.mapping)
            case Recheck(date, mapped) =>
              Becomes(t, s, if !ok then FreeActive(Fault(RenderFailed))
                            else if mapped.previewId in st.previews && st.previews[mapped.previewId] != None
                            then FreeActive(Ready(mapped))
                            else AskMetadata(date, mapped), st.previews, st.mapping)
            case AskMetadata(date, mapped) =>
              Becomes(t, s, if !ok then FreeActive(Fault(RenderFailed))
                            else if mapped.previewId in st.previews then ReadSource(date, Some(mapped.previewId))
                            else ReadSource(date, None), st.previews, st.mapping)
            case ReadSource(date, target) =>
              Becomes(t, s, if !ok || s !in st.sources then FreeActive(Fault(RenderFailed))
                            else Render(date, target, st.sources[s].date), st.previews, st.mapping)
            case Render(date, target, version) =>
              Becomes(t, s, if !ok then FreeActive(Fault(RenderFailed)) else Store(date, target, version),
                      st.previews, st.mapping)
            case FreeActive(verdict) => Becomes(t, s, FreeSlot(verdict), st.previews, st.mapping)
            case FreeSlot(verdict) => Becomes(t, s, Publish(verdict), st.previews, st.mapping)
            case Publish(_) => s !in t.flights && t.previews == st.previews && t.mapping == st.mapping
            case _ => true
  {
    hide Exec, Step, StepJob;
    NextState(capacity, evs, k);
    var st := At(capacity, evs, k);
    if PreviewInvariant.IsQuiet(st.flights[s].pc) {
      PreviewInvariant.QuietIs(capacity, st, s, ok, applied, newId);
    } else if st.flights[s].pc.Publish? {
      WorkStepIs(capacity, st, evs[k]);
      PublishIs(capacity, st.(steps := st.steps + 1), s, ok, applied, newId);
    }
  }

  lemma PublishIs(capacity: nat, u: State, s: FileId, ok: bool, applied: bool, newId: FileId)
    requires u.steps > 0 && s in u.flights && u.flights[s].pc.Publish?
    ensures var t := StepJob(capacity, u, s, u.flights[s], ok, applied, newId);
            s !in t.flights && t.previews == u.previews && t.mapping == u.mapping
  {
  }

  /** The writes of a job: what they leave in the tables, whatever is reported, and where the
      report takes it. A creation for which file-service names a used ID does not happen. */
  lemma WriteAnswers(capacity: nat, evs: seq<Event>, k: nat, s: FileId, ok: bool, applied: bool, newId: FileId)
    requires k < |evs| && evs[k] == Work(s, ok, applied, newId) && s in At(capacity, evs, k).flights
    ensures var st, t := At(capacity, evs, k), At(capacity, evs, k + 1);
            match st.flights[s].pc
            case Store(date, Some(p), version) =>
              Becomes(t, s, if ok && p in st.previews then Commit(date, p, false) else FreeActive(Fault(RenderFailed)),
                      if p in st.previews && (ok || applied) then st.previews[p := Some(Pixels(s, version))]
                      else st.previews,
                      st.mapping)
            case Store(date, None, version) =>
              if (ok || applied) && !IsFresh(st, newId) then Becomes(t, s, st.flights[s].pc, st.previews, st.mapping)
              else Becomes(t, s, if ok then Commit(date, newId, true) else FreeActive(Fault(RenderFailed)),
                           if ok || applied then st.previews[newId := Some(Pixels(s, version))] else st.previews,
                           st.mapping)
            case Commit(date, p, created) =>
              Becomes(t, s, if ok then FreeActive(Ready(Entry(p, date)))
                            else if created then Discard(p) else FreeActive(Fault(RenderFailed)),
                      st.previews, if ok || applied then st.mapping[s := Entry(p, date)] else st.mapping)
            case Discard(p) =>
              Becomes(t, s, FreeActive(Fault(RenderFailed)),
                      if ok || applied then st.previews - {p} else st.previews, st.mapping)
            case _ => true
  {
    hide Exec, Step, StepJob;
    NextState(capacity, evs, k);
    var st := At(capacity, evs, k);
    WorkStepIs(capacity, st, evs[k]);
    var u := st.(steps := st.steps + 1);
    if st.flights[s].pc.Store? {
      StoreIs(capacity, u, s, ok, applied, newId);
    } else if st.flights[s].pc.Commit? || st.flights[s].pc.Discard? {
      CommitOrDiscardIs(capacity, u, s, ok, applied, newId);
    }
  }

  lemma CommitOrDiscardIs(capacity: nat, u: State, s: FileId, ok: bool, applied: bool, newId: FileId)
    requires u.steps > 0 && s in u.flights && (u.flights[s].pc.Commit? || u.flights[s].pc.Discard?)
    ensures var t, pc := StepJob(capacity, u, s, u.flights[s], ok, applied, newId), u.flights[s].pc;
            if pc.Commit? then
              Becomes(t, s, if ok then FreeActive(Ready(Entry(pc.previewId, pc.date)))
                            else if pc.created then Discard(pc.previewId) else FreeActive(Fault(RenderFailed)),
                      u.previews, if ok || applied then u.mapping[s := Entry(pc.previewId, pc.date)] else u.mapping)
            else
              Becomes(t, s, FreeActive(Fault(RenderFailed)),
                      if ok || applied then u.previews - {pc.previewId} else u.previews, u.mapping)
  {
  }

  lemma StoreIs(capacity: nat, u: State, s: FileId, ok: bool, applied: bool, newId: FileId)
    requires u.steps > 0 && s in u.flights && u.flights[s].pc.Store?
    ensures var t, pc := StepJob(capacity, u, s, u.flights[s], ok, applied, newId), u.flights[s].pc;
            match pc.target
            case Some(p) =>
              Becomes(t, s, if ok && p in u.previews then Commit(pc.date, p, false)
                            else FreeActive(Fault(RenderFailed)),
                      if p in u.previews && (ok || applied) then u.previews[p := Some(Pixels(s, pc.version))]
                      else u.previews,
                      u.mapping)
            case None =>
              if (ok || applied) && !IsFresh(u, newId) then Becomes(t, s, pc, u.previews, u.mapping)
              else Becomes(t, s, if ok then Commit(pc.date, newId, true) else FreeActive(Fault(RenderFailed)),
                           if ok || applied then u.previews[newId := Some(Pixels(s, pc.version))] else u.previews,
                           u.mapping)
  {
    hide StepQuiet;
    if u.flights[s].pc.target.Some? {
    } else {
    }
  }
}
