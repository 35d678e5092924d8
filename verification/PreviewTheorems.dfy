/** What the preview cache guarantees on every run. */
module PreviewTheorems {
  import opened Wrappers
  import opened PreviewProtocol
  import opened PreviewInvariant

  /** Any body Resolve returns shows the requested source, no older than its ETag, which
      is no older than the date this request observed; and it goes to authorized callers only. */
  lemma {:induction false} BodiesAreFresh(capacity: nat, evs: seq<Event>, c: nat)
    requires c in Exec(capacity, evs).callers
    ensures var caller := Exec(capacity, evs).callers[c];
            caller.pc.Replied? && caller.pc.response.Body? ==>
              && caller.authorized
              && caller.pc.response.pixels.source == caller.source
              && caller.pc.response.pixels.version >= caller.pc.response.etag >= caller.observed
    ensures var caller := Exec(capacity, evs).callers[c];
            caller.pc.Replied? && caller.pc.response.NotModified? ==>
              && caller.authorized
              && caller.ifNoneMatch == Some(caller.pc.response.etag) && caller.pc.response.etag == caller.observed
  {
    Reachable(capacity, evs);
    assert CallerOk(Exec(capacity, evs), Exec(capacity, evs).callers[c]);
  }

  /** A mapping whose preview has content shows its source no older than the mapped date,
      itself no later than the source's date; previews are mapped for one source only and
      are never sources themselves. */
  lemma {:induction false} MappingsAreSound(capacity: nat, evs: seq<Event>, s: FileId)
    requires s in Exec(capacity, evs).mapping
    ensures var st := Exec(capacity, evs);
            var entry := st.mapping[s];
            && (HasPixels(st, entry.previewId) ==>
                  && st.previews[entry.previewId].value.source == s
                  && st.previews[entry.previewId].value.version >= entry.date)
            && (s in st.sources ==> entry.date <= st.sources[s].date)
            && entry.previewId !in st.known
            && (forall z :: z in st.mapping && z != s ==> st.mapping[z].previewId != entry.previewId)
  {
    Reachable(capacity, evs);
    var st := Exec(capacity, evs);
    assert MappingOk(st, s);
    forall z | z in st.mapping && z != s ensures st.mapping[z].previewId != st.mapping[s].previewId {
      assert MappingOk(st, z);
    }
  }

  // The steps that touch the mapping.
  predicate CommitsNow(st: State, e: Event) {
    e.Work? && e.s in st.flights && st.flights[e.s].pc.Commit? && (e.ok || e.applied)
  }

  lemma MappingOnlyByCommit(capacity: nat, st: State, e: Event)
    ensures Step(capacity, st, e).mapping
         == if CommitsNow(st, e)
            then st.mapping[e.s := Entry(st.flights[e.s].pc.previewId, st.flights[e.s].pc.date)]
            else st.mapping
  {
    hide Step, StepJob;
    if !e.Work? {
      OthersOnHistory(capacity, st, e);
    } else if e.s !in st.flights {
      WorkStepIs(capacity, st, e);
    } else {
      WorkStepIs(capacity, st, e);
      WorkOnMapping(capacity, st.(steps := st.steps + 1), e.s, e.ok, e.applied, e.newId);
    }
  }

  // Only jobs touch the mapping and the history kept of it.
  lemma OthersOnHistory(capacity: nat, st: State, e: Event)
    requires !e.Work?
    ensures var t := Step(capacity, st, e);
            && t.mapping == st.mapping && t.everMapped == st.everMapped
            && t.doubtful == st.doubtful && t.strays == st.strays
  {
    if e.Serve? {
    } else {
    }
  }

  lemma WorkOnMapping(capacity: nat, t: State, s: FileId, ok: bool, applied: bool, newId: FileId)
    requires t.steps > 0 && s in t.flights
    ensures StepJob(capacity, t, s, t.flights[s], ok, applied, newId).mapping
         == if t.flights[s].pc.Commit? && (ok || applied)
            then t.mapping[s := Entry(t.flights[s].pc.previewId, t.flights[s].pc.date)] else t.mapping
  {
    hide StepStore, NextJob, SlotsTaken, PermitsTaken;
    if t.flights[s].pc.Store? {
      StoreOnMapping(t, s, t.flights[s], ok, applied, newId);
    }
  }

  lemma StoreOnMapping(t: State, s: FileId, job: Job, ok: bool, applied: bool, newId: FileId)
    requires job.pc.Store?
    ensures StepStore(t, s, job, ok, applied, newId).mapping == t.mapping
  {
    if job.pc.target.Some? {
    } else {
    }
  }

  /** The mapped date of a source never goes backwards. */
  lemma {:induction false} MappedDatesGrow(capacity: nat, evs: seq<Event>, i: nat, j: nat, s: FileId)
    requires i <= j <= |evs| && s in At(capacity, evs, i).mapping
    ensures s in At(capacity, evs, j).mapping
    ensures At(capacity, evs, i).mapping[s].date <= At(capacity, evs, j).mapping[s].date
    decreases j - i
  {
    hide Step;
    if i < j {
      MappedDatesGrow(capacity, evs, i, j - 1, s);
      CommitFacts(capacity, evs, j - 1);
    }
  }

  lemma CommitFacts(capacity: nat, evs: seq<Event>, i: nat)
    requires i < |evs|
    ensures var st, t := At(capacity, evs, i), At(capacity, evs, i + 1);
            && (!CommitsNow(st, evs[i]) ==> t.mapping == st.mapping)
            && (CommitsNow(st, evs[i]) ==>
                  var s, pc := evs[i].s, st.flights[evs[i].s].pc;
                  && t.mapping == st.mapping[s := Entry(pc.previewId, pc.date)]
                  && JobOk(st, s, st.flights[s]))
  {
    NextState(capacity, evs, i);
    Reachable(capacity, evs[..i]);
    MappingOnlyByCommit(capacity, At(capacity, evs, i), evs[i]);
  }

  // Event k loses the row of preview file p, behind the service's back.
  ghost predicate LostAt(capacity: nat, evs: seq<Event>, k: nat, p: FileId)
    requires k < |evs|
  {
    evs[k] == LoseRow(p) && p in At(capacity, evs, k).previews
  }

  // Why the row of a preview file that no longer exists is gone.
  ghost predicate Explained(capacity: nat, evs: seq<Event>, p: FileId) {
    var st := Exec(capacity, evs);
    p in st.owner && p !in st.previews ==>
      || (exists k :: 0 <= k < |evs| && LostAt(capacity, evs, k, p))
      || p in st.doubtful
      || (p !in st.everMapped && !(st.owner[p] in st.flights && st.flights[st.owner[p]].pc.Commit?
                                   && st.flights[st.owner[p]].pc.previewId == p))
  }

  // Effects of one step on the rows, IDs and job of one preview file.
  ghost predicate FileStep(st: State, t: State, e: Event, p: FileId) {
    && (p in st.owner ==> p in t.owner && t.owner[p] == st.owner[p])
    && (p in t.owner && p !in st.owner ==> p in t.previews)
    && (p in st.doubtful ==> p in t.doubtful)
    && (p in st.previews && p !in t.previews ==>
          || e == LoseRow(p)
          || (e.Work? && e.s in st.flights && st.flights[e.s].pc == Discard(p) && p in st.owner && st.owner[p] == e.s
              && e.s in t.flights && t.flights[e.s].pc.FreeActive?
              && t.everMapped == st.everMapped && t.doubtful == st.doubtful))
    && (p in t.everMapped && p !in st.everMapped ==> Committing(st, st, p))
    && (p in st.owner && Committing(st, t, p) ==> Committing(st, st, p) || p in t.previews)
  }

  // The owner of p, going by st, is about to commit p in t.
  predicate Committing(st: State, t: State, p: FileId) {
    p in st.owner && st.owner[p] in t.flights
    && t.flights[st.owner[p]].pc.Commit? && t.flights[st.owner[p]].pc.previewId == p
  }

  lemma FileStepOutside(capacity: nat, st: State, e: Event, p: FileId)
    requires IsOutside(e) || e.Arrive? || e.GiveUp?
    ensures FileStep(st, Step(capacity, st, e), e, p)
  {
    hide StepCaller, StepJob, NextCaller, Reply;
  }

  lemma FileStepServe(capacity: nat, st: State, e: Event, p: FileId)
    requires e.Serve?
    ensures FileStep(st, Step(capacity, st, e), e, p)
  {
  }

  lemma FileStepQuiet(st: State, t: State, e: Event, s: FileId, p: FileId)
    requires OnlyJob(st, t, s) && !t.flights[s].pc.Commit?
    ensures FileStep(st, t, e, p)
  {
  }

  lemma FileStepInPlace(st: State, t: State, e: Event, s: FileId, target: FileId, next: Job, p: FileId)
    requires StoresInPlace(st, t, s, target, next) && target in st.owner && st.owner[target] == s
    ensures FileStep(st, t, e, p)
  {
  }

  lemma FileStepNew(st: State, t: State, e: Event, s: FileId, id: FileId, next: Job, p: FileId)
    requires StoresNew(st, t, s, id, next)
    ensures FileStep(st, t, e, p)
  {
  }

  lemma FileStepCommit(st: State, t: State, e: Event, s: FileId, told: bool, p: FileId)
    requires CommitsEntry(st, t, s, told) && JobOk(st, s, st.flights[s])
    ensures FileStep(st, t, e, p)
  {
  }

  lemma FileStepDiscard(st: State, t: State, e: Event, s: FileId, id: FileId, happened: bool, p: FileId)
    requires Discards(st, t, s, id, happened) && JobOk(st, s, st.flights[s]) && e.Work? && e.s == s
    ensures FileStep(st, t, e, p)
  {
  }

  // What a step of a job is, for a job that is none of the quiet ones.
  lemma WorkIs(capacity: nat, u: State, s: FileId, ok: bool, applied: bool, newId: FileId)
    requires u.steps > 0 && s in u.flights && LinearOk(u.flights[s])
    ensures var t, pc := StepJob(capacity, u, s, u.flights[s], ok, applied, newId), u.flights[s].pc;
            && (pc.Store? && pc.target.Some? ==>
                  StoresNothing(u, t, s) || (s in t.flights && StoresInPlace(u, t, s, pc.target.value, t.flights[s])))
            && (pc.Store? && pc.target.None? ==>
                  t == u || StoresNothing(u, t, s) || (s in t.flights && StoresNew(u, t, s, newId, t.flights[s])))
            && (pc.Commit? && (ok || applied) ==> (u.flights[s].doubted == false ==> CommitsEntry(u, t, s, ok)))
            && (pc.Commit? && !ok && !applied ==> OnlyJob(u, t, s) && t.flights[s].pc == AfterFailedCommit(pc))
            && (pc.Discard? ==> Discards(u, t, s, pc.previewId, ok || applied))
  {
    hide StepStore, StepQuiet;
    if u.flights[s].pc.Store? {
      if u.flights[s].pc.target.Some? {
        StoreInPlaceIs(u, s, u.flights[s].pc.target.value, ok, applied, newId);
      } else {
        StoreNewIs(u, s, ok, applied, newId);
      }
    }
  }

  lemma FileStepTables(capacity: nat, u: State, e: Event, p: FileId)
    requires u.steps > 0 && e.Work? && e.s in u.flights && !IsQuiet(u.flights[e.s].pc) && !u.flights[e.s].pc.Publish?
    requires JobOk(u, e.s, u.flights[e.s]) && MappingOk(u, e.s)
    ensures FileStep(u, StepJob(capacity, u, e.s, u.flights[e.s], e.ok, e.applied, e.newId), e, p)
  {
    hide StepJob;
    var s, pc := e.s, u.flights[e.s].pc;
    var t := StepJob(capacity, u, s, u.flights[s], e.ok, e.applied, e.newId);
    WorkIs(capacity, u, s, e.ok, e.applied, e.newId);
    if pc.Store? {
      if t == u {
      } else if StoresNothing(u, t, s) {
        FileStepQuiet(u, t, e, s, p);
      } else if pc.target.Some? {
        FileStepInPlace(u, t, e, s, pc.target.value, t.flights[s], p);
      } else {
        FileStepNew(u, t, e, s, e.newId, t.flights[s], p);
      }
    } else if pc.Commit? {
      if e.ok || e.applied {
        FileStepCommit(u, t, e, s, e.ok, p);
      } else {
        FileStepQuiet(u, t, e, s, p);
      }
    } else {
      FileStepDiscard(u, t, e, s, pc.previewId, e.ok || e.applied, p);
    }
  }

  lemma FileStepFlight(capacity: nat, u: State, e: Event, p: FileId)
    requires u.steps > 0 && e.Work? && e.s in u.flights && (IsQuiet(u.flights[e.s].pc) || u.flights[e.s].pc.Publish?)
    ensures FileStep(u, StepJob(capacity, u, e.s, u.flights[e.s], e.ok, e.applied, e.newId), e, p)
  {
    var t := StepJob(capacity, u, e.s, u.flights[e.s], e.ok, e.applied, e.newId);
    if IsQuiet(u.flights[e.s].pc) {
      QuietCommitsNot(capacity, u, e.s, u.flights[e.s], e.ok);
      assert t == StepQuiet(capacity, u, e.s, u.flights[e.s], e.ok);
      FileStepQuiet(u, t, e, e.s, p);
    } else {
      assert t == u.(flights := u.flights - {e.s}, callers := t.callers);
    }
  }

  lemma QuietCommitsNot(capacity: nat, u: State, s: FileId, job: Job, ok: bool)
    requires u.steps > 0 && IsQuiet(job.pc)
    ensures !NextJob(capacity, u, s, job, ok).pc.Commit?
  {
  }

  lemma FileSteps(capacity: nat, st: State, e: Event, p: FileId)
    requires Inv(st)
    ensures FileStep(st, Step(capacity, st, e), e, p)
  {
    if e.Serve? {
      FileStepServe(capacity, st, e, p);
    } else if e.Work? {
      FileStepWork(capacity, st, e, p);
    } else {
      FileStepOutside(capacity, st, e, p);
    }
  }

  lemma FileStepWork(capacity: nat, st: State, e: Event, p: FileId)
    requires Inv(st) && e.Work?
    ensures FileStep(st, Step(capacity, st, e), e, p)
  {
    hide Step, StepJob, JobOk;
    var u := st.(steps := st.steps + 1);
    WorkStepIs(capacity, st, e);
    if e.s in st.flights {
      assert JobOk(st, e.s, st.flights[e.s]);
      assert e.s in st.mapping ==> MappingOk(st, e.s);
      SameTablesKeepJob(st, u, e.s, st.flights[e.s]);
      if IsQuiet(st.flights[e.s].pc) || st.flights[e.s].pc.Publish? {
        FileStepFlight(capacity, u, e, p);
      } else {
        FileStepTables(capacity, u, e, p);
      }
    }
  }

  lemma LossesStay(capacity: nat, evs: seq<Event>, n: nat, p: FileId)
    requires n <= |evs|
    ensures forall k :: 0 <= k < n && LostAt(capacity, evs[..n], k, p) ==> LostAt(capacity, evs, k, p)
  {
    forall k | 0 <= k < n && LostAt(capacity, evs[..n], k, p) ensures LostAt(capacity, evs, k, p) {
      SamePast(capacity, evs, n, k);
    }
  }

  lemma LostNow(capacity: nat, evs: seq<Event>, p: FileId)
    requires evs != []
    ensures var n := |evs| - 1;
            evs[n] == LoseRow(p) && p in Exec(capacity, evs[..n]).previews ==> LostAt(capacity, evs, n, p)
  {
  }

  lemma {:induction false} GoneRowsExplained(capacity: nat, evs: seq<Event>, p: FileId)
    ensures Explained(capacity, evs, p)
  {
    hide Step, StepJob, LostAt;
    if evs != [] {
      var past, e := evs[..|evs| - 1], evs[|evs| - 1];
      GoneRowsExplained(capacity, past, p);
      Reachable(capacity, past);
      var st := Exec(capacity, past);
      LossesStay(capacity, evs, |past|, p);
      LostNow(capacity, evs, p);
      FileSteps(capacity, st, e, p);
      assert evs == past + [e];
      if e.Work? && e.s in st.flights {
        assert JobOk(st, e.s, st.flights[e.s]);
      }
    }
  }

  // Event k discards preview file p.
  ghost predicate DiscardedAt(capacity: nat, evs: seq<Event>, k: nat, p: FileId)
    requires k < |evs|
  {
    var st := At(capacity, evs, k);
    && p in st.previews && p !in At(capacity, evs, k + 1).previews
    && evs[k].Work? && evs[k].s in st.flights && st.flights[evs[k].s].pc == Discard(p)
  }

  // The row of a preview file that no longer exists was lost or discarded.
  lemma {:induction false} RowsGoOneWay(capacity: nat, evs: seq<Event>, n: nat, p: FileId)
    requires n <= |evs| && p in At(capacity, evs, n).owner && p !in At(capacity, evs, n).previews
    ensures exists k :: 0 <= k < n && (LostAt(capacity, evs, k, p) || DiscardedAt(capacity, evs, k, p))
  {
    hide Step, StepJob, Inv;
    if n > 0 {
      var st := At(capacity, evs, n - 1);
      NextState(capacity, evs, n - 1);
      Reachable(capacity, evs[..n - 1]);
      FileSteps(capacity, st, evs[n - 1], p);
      if p in st.previews {
        assert LostAt(capacity, evs, n - 1, p) || DiscardedAt(capacity, evs, n - 1, p);
      } else {
        RowsGoOneWay(capacity, evs, n - 1, p);
      }
    }
  }

  /** The mapped preview ID changes only after that file's row is gone: lost outside, or
      discarded because the very update that mapped it was reported as failed. */
  lemma MappedIdIsStable(capacity: nat, evs: seq<Event>, i: nat, s: FileId)
    requires i < |evs| && s in At(capacity, evs, i).mapping && s in At(capacity, evs, i + 1).mapping
    requires At(capacity, evs, i + 1).mapping[s].previewId != At(capacity, evs, i).mapping[s].previewId
    ensures var st := At(capacity, evs, i);
            var p := st.mapping[s].previewId;
            && p !in st.previews
            && ((exists k :: 0 <= k < i && LostAt(capacity, evs, k, p))
                || ((exists k :: 0 <= k < i && DiscardedAt(capacity, evs, k, p))
                    && (exists k :: 0 <= k < i && DoubtedAt(capacity, evs, k, p))))
  {
    hide Step, StepJob, LostAt, DiscardedAt, DoubtedAt, LeftAt, MappedAt;
    CommitFacts(capacity, evs, i);
    Reachable(capacity, evs[..i]);
    var st := At(capacity, evs, i);
    assert MappingOk(st, s);
    GoneRowsExplained(capacity, evs[..i], st.mapping[s].previewId);
    LossesStay(capacity, evs, i, st.mapping[s].previewId);
    RowsGoOneWay(capacity, evs, i, st.mapping[s].previewId);
    HistoryMeans(capacity, evs, i, st.mapping[s].previewId);
  }

  // Event e leaves preview file p behind: its creation is reported as failed although it
  // happened, or it is to be discarded and the deletion fails.
  predicate Leaves(st: State, e: Event, p: FileId) {
    && e.Work? && e.s in st.flights && !e.ok
    && var pc := st.flights[e.s].pc;
       || (pc.Store? && pc.target == None && e.applied && e.newId == p && IsFresh(st, p))
       || (pc == Discard(p) && !e.applied)
  }

  // Event e maps p, and the job is told that it has not.
  predicate Doubts(st: State, e: Event, p: FileId) {
    && e.Work? && e.s in st.flights && !e.ok && e.applied
    && st.flights[e.s].pc.Commit? && st.flights[e.s].pc.previewId == p
  }

  predicate Maps(st: State, e: Event, p: FileId) {
    CommitsNow(st, e) && st.flights[e.s].pc.previewId == p
  }

  lemma WorkOnHistory(capacity: nat, t: State, e: Event, p: FileId)
    requires e.Work? && t.steps > 0 && e.s in t.flights
    ensures var r := StepJob(capacity, t, e.s, t.flights[e.s], e.ok, e.applied, e.newId);
            && (p in r.everMapped <==> p in t.everMapped || Maps(t, e, p))
            && (p in r.doubtful <==> p in t.doubtful || Doubts(t, e, p))
            && (p in r.strays <==> p in t.strays || Leaves(t, e, p))
  {
    hide StepStore, NextJob, SlotsTaken, PermitsTaken;
    if t.flights[e.s].pc.Store? {
      StoreOnHistory(t, e, p);
    }
  }

  lemma StoreOnHistory(t: State, e: Event, p: FileId)
    requires e.Work? && e.s in t.flights && t.flights[e.s].pc.Store?
    ensures var r := StepStore(t, e.s, t.flights[e.s], e.ok, e.applied, e.newId);
            && r.everMapped == t.everMapped && r.doubtful == t.doubtful
            && (p in r.strays <==> p in t.strays || Leaves(t, e, p))
  {
    if t.flights[e.s].pc.target.Some? {
    } else {
    }
  }

  ghost predicate HistoryGrows(st: State, t: State, e: Event, p: FileId) {
    && (p in t.everMapped <==> p in st.everMapped || Maps(st, e, p))
    && (p in t.doubtful <==> p in st.doubtful || Doubts(st, e, p))
    && (p in t.strays <==> p in st.strays || Leaves(st, e, p))
  }

  lemma HistoryStepWork(capacity: nat, st: State, e: Event, p: FileId)
    requires e.Work?
    ensures HistoryGrows(st, Step(capacity, st, e), e, p)
  {
    hide Step, StepJob;
    WorkStepIs(capacity, st, e);
    if e.s in st.flights {
      WorkOnHistory(capacity, st.(steps := st.steps + 1), e, p);
    }
  }

  lemma HistoryStep(capacity: nat, st: State, e: Event, p: FileId)
    ensures HistoryGrows(st, Step(capacity, st, e), e, p)
  {
    if e.Work? {
      HistoryStepWork(capacity, st, e, p);
    } else {
      OthersOnHistory(capacity, st, e);
    }
  }

  ghost predicate LeftAt(capacity: nat, evs: seq<Event>, k: nat, p: FileId)
    requires k < |evs|
  {
    Leaves(At(capacity, evs, k), evs[k], p)
  }

  ghost predicate DoubtedAt(capacity: nat, evs: seq<Event>, k: nat, p: FileId)
    requires k < |evs|
  {
    Doubts(At(capacity, evs, k), evs[k], p)
  }

  ghost predicate MappedAt(capacity: nat, evs: seq<Event>, k: nat, s: FileId, p: FileId)
    requires k <= |evs|
  {
    var st := At(capacity, evs, k);
    s in st.mapping && st.mapping[s].previewId == p
  }

  // The history sets mean what they are called.
  lemma {:induction false} HistoryMeans(capacity: nat, evs: seq<Event>, n: nat, p: FileId)
    requires n <= |evs|
    ensures var st := At(capacity, evs, n);
            && (p in st.strays <==> exists k :: 0 <= k < n && LeftAt(capacity, evs, k, p))
            && (p in st.doubtful <==> exists k :: 0 <= k < n && DoubtedAt(capacity, evs, k, p))
            && (p in st.everMapped <==> exists k, s :: 0 <= k <= n && MappedAt(capacity, evs, k, s, p))
  {
    hide Step, LeftAt, DoubtedAt;
    if n == 0 {
      assert At(capacity, evs, 0) == Init();
    } else {
      HistoryMeans(capacity, evs, n - 1, p);
      LeftMeans(capacity, evs, n, p);
      DoubtMeans(capacity, evs, n, p);
      MappedMeans(capacity, evs, n, p);
    }
  }

  lemma LeftMeans(capacity: nat, evs: seq<Event>, n: nat, p: FileId)
    requires 0 < n <= |evs|
    requires p in At(capacity, evs, n - 1).strays <==> exists k :: 0 <= k < n - 1 && LeftAt(capacity, evs, k, p)
    ensures p in At(capacity, evs, n).strays <==> exists k :: 0 <= k < n && LeftAt(capacity, evs, k, p)
  {
    hide Step;
    NextState(capacity, evs, n - 1);
    HistoryStep(capacity, At(capacity, evs, n - 1), evs[n - 1], p);
    assert LeftAt(capacity, evs, n - 1, p) <==> Leaves(At(capacity, evs, n - 1), evs[n - 1], p);
  }

  lemma DoubtMeans(capacity: nat, evs: seq<Event>, n: nat, p: FileId)
    requires 0 < n <= |evs|
    requires p in At(capacity, evs, n - 1).doubtful <==> exists k :: 0 <= k < n - 1 && DoubtedAt(capacity, evs, k, p)
    ensures p in At(capacity, evs, n).doubtful <==> exists k :: 0 <= k < n && DoubtedAt(capacity, evs, k, p)
  {
    hide Step;
    NextState(capacity, evs, n - 1);
    HistoryStep(capacity, At(capacity, evs, n - 1), evs[n - 1], p);
    assert DoubtedAt(capacity, evs, n - 1, p) <==> Doubts(At(capacity, evs, n - 1), evs[n - 1], p);
  }

  lemma MappedMeans(capacity: nat, evs: seq<Event>, n: nat, p: FileId)
    requires 0 < n <= |evs|
    requires p in At(capacity, evs, n - 1).everMapped
        <==> exists k, s :: 0 <= k <= n - 1 && MappedAt(capacity, evs, k, s, p)
    ensures p in At(capacity, evs, n).everMapped <==> exists k, s :: 0 <= k <= n && MappedAt(capacity, evs, k, s, p)
  {
    hide Step;
    NextState(capacity, evs, n - 1);
    var st, e := At(capacity, evs, n - 1), evs[n - 1];
    HistoryStep(capacity, st, e, p);
    MappingOnlyByCommit(capacity, st, e);
    if Maps(st, e, p) {
      assert MappedAt(capacity, evs, n, e.s, p);
    }
    forall s | MappedAt(capacity, evs, n, s, p) ensures p in At(capacity, evs, n).everMapped {
      if !Maps(st, e, p) {
        assert MappedAt(capacity, evs, n - 1, s, p);
      }
    }
  }

  /** No orphans: a preview row that exists is mapped, or held by a job between creating
      and committing it, or was left behind by a failed creation or deletion. */
  lemma {:induction false} EveryRowIsAccountedFor(capacity: nat, evs: seq<Event>, p: FileId)
    requires p in Exec(capacity, evs).previews
    ensures var st := Exec(capacity, evs);
            || (exists s :: s in st.mapping && st.mapping[s].previewId == p)
            || (exists s :: s in st.flights && Holding(st.flights[s], p))
            || (exists k :: 0 <= k < |evs| && LeftAt(capacity, evs, k, p))
  {
    hide DoubtedAt, LeftAt, MappedAt;
    Reachable(capacity, evs);
    HistoryMeans(capacity, evs, |evs|, p);
    assert evs[..|evs|] == evs;
    assert RowOk(Exec(capacity, evs), p);
  }

  /** The clean-up of an uncommitted file hits an ID that some mapping has ever named
      exactly when an update naming it was reported as failed although it happened. */
  lemma DiscardsHitUnmappedFiles(capacity: nat, evs: seq<Event>, i: nat, p: FileId)
    requires i < |evs| && evs[i].Work? && evs[i].s in At(capacity, evs, i).flights
    requires At(capacity, evs, i).flights[evs[i].s].pc == Discard(p)
    ensures (exists k, s :: 0 <= k <= i && MappedAt(capacity, evs, k, s, p))
       <==> (exists k :: 0 <= k < i && DoubtedAt(capacity, evs, k, p))
  {
    hide DoubtedAt, LeftAt, MappedAt;
    Reachable(capacity, evs[..i]);
    HistoryMeans(capacity, evs, i, p);
    assert JobOk(At(capacity, evs, i), evs[i].s, At(capacity, evs, i).flights[evs[i].s]);
  }
}
