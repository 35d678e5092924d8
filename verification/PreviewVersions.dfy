/** No picture is from the future: what a preview shows is a version its source has had. */
module PreviewVersions {
  import opened Wrappers
  import opened PreviewProtocol
  import opened PreviewInvariant
  import PreviewTheorems

  // The source has reached this version, if it still exists.
  ghost predicate Real(st: State, pixels: Pixels) {
    && pixels.source in st.known
    && (pixels.source in st.sources ==> pixels.version <= st.sources[pixels.source].date)
  }

  // The version of the content that a job has read.
  function VersionOf(pc: JobPc): Option<int> {
    match pc
    case Render(_, _, version) => Some(version)
    case Store(_, _, version) => Some(version)
    case _ => None
  }

  ghost predicate JobReal(st: State, s: FileId, job: Job) {
    VersionOf(job.pc).Some? ==> Real(st, Pixels(s, VersionOf(job.pc).value))
  }

  ghost predicate AllReal(st: State) {
    && (forall p :: HasPixels(st, p) ==> Real(st, st.previews[p].value))
    && (forall s :: s in st.flights ==> JobReal(st, s, st.flights[s]))
  }

  // Sources only grow, or go; previews only lose what they show.
  ghost predicate Ages(st: State, t: State) {
    && st.known <= t.known && t.flights == st.flights
    && (forall s :: s in st.known && s in t.sources ==> s in st.sources && st.sources[s].date <= t.sources[s].date)
    && (forall p :: HasPixels(t, p) ==> HasPixels(st, p) && t.previews[p] == st.previews[p])
  }

  lemma OutsideSources(capacity: nat, st: State, e: Event)
    requires e.NewSource? || e.Save? || e.DropSource?
    requires st.sources.Keys <= st.known
    ensures Ages(st, Step(capacity, st, e))
  {
    hide StepJob, StepCaller;
  }

  lemma OutsidePreviews(capacity: nat, st: State, e: Event)
    requires e.LosePixels? || e.LoseRow?
    requires st.sources.Keys <= st.known
    ensures Ages(st, Step(capacity, st, e))
  {
    hide StepJob, StepCaller;
  }

  lemma OutsideAges(capacity: nat, st: State, e: Event)
    requires IsOutside(e) && st.sources.Keys <= st.known
    ensures Ages(st, Step(capacity, st, e))
  {
    hide Step, Ages;
    if e.LosePixels? || e.LoseRow? {
      OutsidePreviews(capacity, st, e);
    } else {
      OutsideSources(capacity, st, e);
    }
  }

  lemma OutsideReal(capacity: nat, st: State, e: Event)
    requires IsOutside(e) && AllReal(st) && st.sources.Keys <= st.known
    ensures AllReal(Step(capacity, st, e))
  {
    hide Step, VersionOf;
    var t := Step(capacity, st, e);
    OutsideAges(capacity, st, e);
    forall s | s in t.flights ensures JobReal(t, s, t.flights[s]) {
      assert JobReal(st, s, st.flights[s]);
    }
  }

  lemma OnlyCallerReal(st: State, t: State, c: nat)
    requires AllReal(st) && OnlyCaller(st, t, c)
    ensures AllReal(t)
  {
    forall p | HasPixels(t, p) ensures Real(t, t.previews[p].value) {
      assert HasPixels(st, p);
    }
    forall s | s in t.flights ensures JobReal(t, s, t.flights[s]) {
      if s in st.flights {
        assert JobReal(st, s, st.flights[s]);
      }
    }
  }

  lemma QuietReal(capacity: nat, u: State, s: FileId, ok: bool)
    requires u.steps > 0 && s in u.flights && IsQuiet(u.flights[s].pc) && s in u.known
    requires AllReal(u)
    ensures AllReal(StepQuiet(capacity, u, s, u.flights[s], ok))
  {
    hide SlotsTaken, PermitsTaken;
    var t, job := StepQuiet(capacity, u, s, u.flights[s], ok), u.flights[s];
    assert JobReal(u, s, job);
    assert JobReal(t, s, NextJob(capacity, u, s, job, ok));
    forall p | HasPixels(t, p) ensures Real(t, t.previews[p].value) {
      assert HasPixels(u, p);
    }
  }

  // A step of a job that stores the picture it has, if any, and changes nothing else of these.
  ghost predicate Stores(u: State, t: State, s: FileId) {
    && s in u.flights && t.sources == u.sources && t.known == u.known
    && (forall z :: z in t.flights ==>
          VersionOf(t.flights[z].pc) == None || (z in u.flights && t.flights[z] == u.flights[z]))
    && (forall p :: HasPixels(t, p) ==>
          || (HasPixels(u, p) && t.previews[p] == u.previews[p])
          || (VersionOf(u.flights[s].pc).Some? && t.previews[p].value == Pixels(s, VersionOf(u.flights[s].pc).value)))
  }

  lemma StoresReal(u: State, t: State, s: FileId)
    requires AllReal(u) && Stores(u, t, s)
    ensures AllReal(t)
  {
    hide VersionOf;
    assert JobReal(u, s, u.flights[s]);
    forall z | z in t.flights ensures JobReal(t, z, t.flights[z]) {
      assert z in u.flights ==> JobReal(u, z, u.flights[z]);
    }
  }

  lemma StoreInPlaceStores(u: State, s: FileId, ok: bool, applied: bool, newId: FileId)
    requires s in u.flights && u.flights[s].pc.Store? && u.flights[s].pc.target.Some?
    ensures Stores(u, StepStore(u, s, u.flights[s], ok, applied, newId), s)
  {
  }

  lemma StoreNewStores(u: State, s: FileId, ok: bool, applied: bool, newId: FileId)
    requires s in u.flights && u.flights[s].pc.Store? && u.flights[s].pc.target.None?
    ensures var t := StepStore(u, s, u.flights[s], ok, applied, newId); t == u || Stores(u, t, s)
  {
  }

  lemma StoreStores(u: State, e: Event)
    requires e.Work? && e.s in u.flights && u.flights[e.s].pc.Store?
    ensures var t := StepStore(u, e.s, u.flights[e.s], e.ok, e.applied, e.newId);
            t == u || Stores(u, t, e.s)
  {
    hide StepStore, Stores;
    if u.flights[e.s].pc.target.Some? {
      StoreInPlaceStores(u, e.s, e.ok, e.applied, e.newId);
    } else {
      StoreNewStores(u, e.s, e.ok, e.applied, e.newId);
    }
  }

  lemma TablesStore(capacity: nat, u: State, e: Event)
    requires u.steps > 0 && e.Work? && e.s in u.flights
    requires var pc := u.flights[e.s].pc; pc.Commit? || pc.Discard? || pc.Publish?
    ensures Stores(u, StepJob(capacity, u, e.s, u.flights[e.s], e.ok, e.applied, e.newId), e.s)
  {
    hide StepStore, StepQuiet;
  }

  lemma WorkReal(capacity: nat, st: State, e: Event)
    requires e.Work? && AllReal(st) && (e.s in st.flights ==> e.s in st.known)
    ensures AllReal(Step(capacity, st, e))
  {
    hide Step, StepQuiet, Stores;
    var u := st.(steps := st.steps + 1);
    WorkStepIs(capacity, st, e);
    SameReal(st, u);
    if e.s in st.flights {
      var pc := st.flights[e.s].pc;
      if pc.Store? {
        StoreStores(u, e);
        assert Step(capacity, st, e) == StepStore(u, e.s, u.flights[e.s], e.ok, e.applied, e.newId);
        if Step(capacity, st, e) != u {
          StoresReal(u, Step(capacity, st, e), e.s);
        }
      } else if pc.Commit? || pc.Discard? || pc.Publish? {
        TablesStore(capacity, u, e);
        StoresReal(u, Step(capacity, st, e), e.s);
      } else {
        QuietReal(capacity, u, e.s, e.ok);
      }
    }
  }

  lemma SameReal(st: State, u: State)
    requires AllReal(st) && u == st.(steps := u.steps)
    ensures AllReal(u)
  {
    forall p | HasPixels(u, p) ensures Real(u, u.previews[p].value) {
      assert HasPixels(st, p);
    }
    forall s | s in u.flights ensures JobReal(u, s, u.flights[s]) {
      assert JobReal(st, s, st.flights[s]);
    }
  }

  lemma StepReal(capacity: nat, st: State, e: Event)
    requires Inv(st) && AllReal(st)
    ensures AllReal(Step(capacity, st, e))
  {
    hide Step, AllReal, OnlyCaller, JobOk, MappingOk, RowOk;
    match e {
      case Arrive(c, s, ifNoneMatch) =>
        ArriveIs(capacity, st, c, s, ifNoneMatch);
        OnlyCallerReal(st, Step(capacity, st, e), c);
      case GiveUp(c) =>
        GiveUpIs(capacity, st, c);
        OnlyCallerReal(st, Step(capacity, st, e), c);
      case Serve(c, ok, allowed) =>
        if c in st.callers {
          assert CallerOk(st, st.callers[c]);
          ServeIs(capacity, st, c, ok, allowed);
          OnlyCallerReal(st, Step(capacity, st, e), c);
        } else {
          ServeNobody(capacity, st, c, ok, allowed);
          SameReal(st, Step(capacity, st, e));
        }
      case Work(s, ok, applied, newId) =>
        JobsKnown(st, s);
        WorkReal(capacity, st, e);
      case _ =>
        OutsideReal(capacity, st, e);
    }
  }

  lemma JobsKnown(st: State, s: FileId)
    requires Inv(st)
    ensures s in st.flights ==> s in st.known
  {
    assert s in st.flights ==> JobOk(st, s, st.flights[s]);
  }

  lemma {:induction false} AlwaysReal(capacity: nat, evs: seq<Event>)
    ensures AllReal(Exec(capacity, evs))
  {
    hide Step, Inv;
    if evs == [] {
      NothingReal();
    } else {
      AlwaysReal(capacity, evs[..|evs| - 1]);
      Reachable(capacity, evs[..|evs| - 1]);
      StepReal(capacity, Exec(capacity, evs[..|evs| - 1]), evs[|evs| - 1]);
    }
  }

  lemma NothingReal()
    ensures AllReal(Init())
  {
  }

  /** A mapping that is current shows, if anything, exactly the source's current version; any
      mapping of a source shows a version between the mapped date and the source's own. */
  lemma {:induction false} MappedVersionsAreReal(capacity: nat, evs: seq<Event>, s: FileId)
    requires var st := Exec(capacity, evs);
             s in st.mapping && s in st.sources && HasPixels(st, st.mapping[s].previewId)
    ensures var st := Exec(capacity, evs);
            var pixels := st.previews[st.mapping[s].previewId].value;
            && pixels.source == s && st.mapping[s].date <= pixels.version <= st.sources[s].date
  {
    AlwaysReal(capacity, evs);
    PreviewTheorems.MappingsAreSound(capacity, evs, s);
  }
}
