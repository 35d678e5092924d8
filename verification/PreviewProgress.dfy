/** What the preview cache achieves when nothing goes wrong: a request whose calls all succeed,
    while nothing is saved or lost and the render queue has room, ends with the current
    picture; and so does the next one, without rendering anything. */
module PreviewProgress {
  import opened Wrappers
  import opened PreviewProtocol
  import opened PreviewInvariant
  import PreviewVersions

  // The next step of caller c: its own, or, while it waits, the one of the job it waits for.
  // All calls succeed, access is granted, and file-service names a new file newId.
  function Next(capacity: nat, t: State, c: nat, newId: FileId): State {
    if c !in t.callers then t
    else if t.callers[c].pc.Waiting? then Step(capacity, t, Work(t.callers[c].source, true, false, newId))
    else Step(capacity, t, Serve(c, true, true))
  }

  // After n such steps.
  function Drive(capacity: nat, t: State, c: nat, newId: FileId, n: nat): State
    decreases n
  {
    if n == 0 then t else Drive(capacity, Next(capacity, t, c, newId), c, newId, n - 1)
  }

  // The current picture of the source is in the cache.
  ghost predicate Cached(t: State, s: FileId, date: int) {
    && s in t.mapping && t.mapping[s].date == date
    && t.mapping[s].previewId in t.previews && t.previews[t.mapping[s].previewId] == Some(Pixels(s, date))
  }

  ghost predicate Available(t: State, s: FileId, date: int) {
    s in t.known && s in t.sources && t.sources[s] == Source(date, true)
  }

  // The caller has the current picture, with the current date as its ETag.
  ghost predicate Served(t: State, c: nat, s: FileId, date: int) {
    && Available(t, s, date) && Cached(t, s, date)
    && c in t.callers && t.callers[c].source == s && t.callers[c].pc == Replied(Body(date, Pixels(s, date)))
  }

  ghost predicate Wins(capacity: nat, t: State, c: nat, s: FileId, date: int, newId: FileId, n: nat) {
    Served(Drive(capacity, t, c, newId, n), c, s, date)
  }

  lemma ServedStays(capacity: nat, t: State, c: nat, s: FileId, date: int, newId: FileId)
    requires Served(t, c, s, date)
    ensures Served(Next(capacity, t, c, newId), c, s, date)
  {
    hide Step, NextCaller;
    ServeIs(capacity, t, c, true, true);
    RepliedStays(t.(steps := t.steps + 1), t.callers[c]);
  }

  lemma RepliedStays(u: State, caller: Caller)
    requires u.steps > 0 && caller.pc.Replied?
    ensures NextCaller(u, caller, true, true) == caller
  {
  }

  lemma {:induction false} WinsLater(capacity: nat, t: State, c: nat, s: FileId, date: int, newId: FileId, n: nat)
    requires Wins(capacity, t, c, s, date, newId, n)
    ensures Wins(capacity, t, c, s, date, newId, n + 1)
    decreases n
  {
    hide Next, Served;
    if n == 0 {
      ServedStays(capacity, t, c, s, date, newId);
      assert Drive(capacity, t, c, newId, 1) == Drive(capacity, Next(capacity, t, c, newId), c, newId, 0);
    } else {
      WinsLater(capacity, Next(capacity, t, c, newId), c, s, date, newId, n - 1);
    }
  }

  lemma WinsNext(capacity: nat, t: State, c: nat, s: FileId, date: int, newId: FileId, n: nat)
    requires Wins(capacity, Next(capacity, t, c, newId), c, s, date, newId, n)
    ensures Wins(capacity, t, c, s, date, newId, n + 1)
  {
    hide Next, Served;
  }

  // A current mapping shows nothing, or the current picture.
  ghost predicate MapFine(t: State, s: FileId, date: int) {
    s in t.mapping && t.mapping[s].date == date && HasPixels(t, t.mapping[s].previewId) ==> Cached(t, s, date)
  }

  // The request is at this point, all its lookups so far having found the current date.
  ghost predicate Asks(t: State, c: nat, s: FileId, date: int, newId: FileId, pc: CallerPc) {
    && Available(t, s, date) && MapFine(t, s, date) && IsFresh(t, newId)
    && c in t.callers && t.callers[c].source == s && t.callers[c].pc == pc
    && (!pc.LookUp? ==> t.callers[c].observed == date)
    && t.callers[c].ifNoneMatch != Some(date)
  }

  // The request waits, and the job it waits for is at this point.
  ghost predicate Waits(t: State, c: nat, s: FileId, date: int, newId: FileId, pc: JobPc) {
    && Asks(t, c, s, date, newId, Waiting)
    && s in t.flights && t.flights[s].pc == pc
  }

  // There is room in the render queue.
  predicate HasRoom(capacity: nat, t: State) {
    Admits(capacity, t) && t.active < MAX_ACTIVE_RENDERS
  }

  // The tables are as they were.
  ghost predicate SameTables(t: State, r: State) {
    && r.sources == t.sources && r.previews == t.previews && r.mapping == t.mapping
    && r.owner == t.owner && r.known == t.known
  }

  // The caller's own step.
  lemma ServeNext(capacity: nat, t: State, c: nat, newId: FileId)
    requires c in t.callers && !t.callers[c].pc.Waiting? && t.callers[c].source in t.known
    ensures var r := Next(capacity, t, c, newId);
            && SameTables(t, r) && r.slots == t.slots && r.active == t.active
            && c in r.callers && r.callers[c] == NextCaller(t.(steps := t.steps + 1), t.callers[c], true, true)
            && (!t.callers[c].pc.Join? ==> r.flights == t.flights)
            && (t.callers[c].pc.Join? && t.callers[c].source !in t.flights ==>
                  t.callers[c].source in r.flights && r.flights[t.callers[c].source].pc.Admit?)
  {
    hide StepJob, NextCaller;
  }

  // A quiet step of the job.
  lemma QuietNext(capacity: nat, t: State, c: nat, s: FileId, date: int, newId: FileId, pc: JobPc)
    requires Waits(t, c, s, date, newId, pc) && IsQuiet(pc)
    ensures var r, u := Next(capacity, t, c, newId), t.(steps := t.steps + 1);
            && SameTables(t, r)
            && Waits(r, c, s, date, newId, NextJob(capacity, u, s, t.flights[s], true).pc)
            && r.active == t.active + PermitsTaken(u, pc, true)
  {
    hide Step, NextJob, PermitsTaken, SlotsTaken;
    QuietIs(capacity, t, s, true, false, newId);
  }

  lemma FromReadCommitted(capacity: nat, t: State, c: nat, s: FileId, date: int, newId: FileId, entry: Entry)
    requires Available(t, s, date) && Cached(t, s, date) && t.mapping[s] == entry
    requires c in t.callers && t.callers[c].source == s && t.callers[c].pc == ReadCommitted(entry)
    ensures Wins(capacity, t, c, s, date, newId, 1)
  {
    hide Next;
    ServeNext(capacity, t, c, newId);
    assert Wins(capacity, Next(capacity, t, c, newId), c, s, date, newId, 0);
    WinsNext(capacity, t, c, s, date, newId, 0);
  }

  lemma FromReceived(capacity: nat, t: State, c: nat, s: FileId, date: int, newId: FileId, entry: Entry)
    requires Available(t, s, date) && Cached(t, s, date) && t.mapping[s] == entry
    requires c in t.callers && t.callers[c].source == s && t.callers[c].observed == date
    requires t.callers[c].pc.Received? && t.callers[c].pc.verdict == Ready(entry)
    ensures Wins(capacity, t, c, s, date, newId, 2)
  {
    hide Next, Wins;
    ServeNext(capacity, t, c, newId);
    FromReadCommitted(capacity, Next(capacity, t, c, newId), c, s, date, newId, entry);
    WinsNext(capacity, t, c, s, date, newId, 1);
  }

  // From here on the job only lands: it has the current entry.
  ghost predicate Lands(t: State, c: nat, s: FileId, date: int, pc: JobPc) {
    && Available(t, s, date) && Cached(t, s, date)
    && c in t.callers && t.callers[c].source == s && t.callers[c].observed == date && t.callers[c].pc.Waiting?
    && s in t.flights && t.flights[s].pc == pc
  }

  lemma FromPublish(capacity: nat, t: State, c: nat, s: FileId, date: int, newId: FileId, entry: Entry)
    requires Lands(t, c, s, date, Publish(Ready(entry))) && t.mapping[s] == entry
    ensures Wins(capacity, t, c, s, date, newId, 3)
  {
    hide Wins, StepStore, StepQuiet, StepCaller;
    FromReceived(capacity, Next(capacity, t, c, newId), c, s, date, newId, entry);
    WinsNext(capacity, t, c, s, date, newId, 2);
  }

  lemma LandsNext(capacity: nat, t: State, c: nat, s: FileId, date: int, newId: FileId, pc: JobPc)
    requires Lands(t, c, s, date, pc) && IsQuiet(pc)
    ensures var r, u := Next(capacity, t, c, newId), t.(steps := t.steps + 1);
            r.mapping == t.mapping && Lands(r, c, s, date, NextJob(capacity, u, s, t.flights[s], true).pc)
  {
    hide Step, NextJob, PermitsTaken, SlotsTaken;
    QuietIs(capacity, t, s, true, false, newId);
  }

  lemma FromFreeActive(capacity: nat, t: State, c: nat, s: FileId, date: int, newId: FileId, entry: Entry)
    requires Lands(t, c, s, date, FreeActive(Ready(entry))) && t.mapping[s] == entry
    ensures Wins(capacity, t, c, s, date, newId, 5)
  {
    hide Next, Wins;
    var t1 := Next(capacity, t, c, newId);
    var t2 := Next(capacity, t1, c, newId);
    LandsNext(capacity, t, c, s, date, newId, FreeActive(Ready(entry)));
    LandsNext(capacity, t1, c, s, date, newId, FreeSlot(Ready(entry)));
    FromPublish(capacity, t2, c, s, date, newId, entry);
    WinsNext(capacity, t1, c, s, date, newId, 3);
    WinsNext(capacity, t, c, s, date, newId, 4);
  }

  // The job holds the current picture in file p, and is about to map it.
  ghost predicate Stored(t: State, c: nat, s: FileId, date: int, p: FileId, created: bool) {
    && Available(t, s, date)
    && p in t.previews && t.previews[p] == Some(Pixels(s, date))
    && c in t.callers && t.callers[c].source == s && t.callers[c].observed == date && t.callers[c].pc.Waiting?
    && s in t.flights && t.flights[s].pc == Commit(date, p, created)
  }

  lemma FromCommit(capacity: nat, t: State, c: nat, s: FileId, date: int, newId: FileId, p: FileId, created: bool)
    requires Stored(t, c, s, date, p, created)
    ensures Wins(capacity, t, c, s, date, newId, 6)
  {
    hide Wins, StepStore, StepQuiet, StepCaller;
    FromFreeActive(capacity, Next(capacity, t, c, newId), c, s, date, newId, Entry(p, date));
    WinsNext(capacity, t, c, s, date, newId, 5);
  }

  // The file to replace, if there is one, has a row.
  ghost predicate TargetExists(t: State, target: Option<FileId>) {
    target.Some? ==> target.value in t.previews
  }

  lemma StoreNext(capacity: nat, t: State, c: nat, s: FileId, date: int, newId: FileId, target: Option<FileId>)
    requires Waits(t, c, s, date, newId, Store(date, target, date)) && TargetExists(t, target)
    ensures var r := Next(capacity, t, c, newId);
            Stored(r, c, s, date, if target.Some? then target.value else newId, target == None)
  {
    hide Step, StepJob;
    WorkStepIs(capacity, t, Work(s, true, false, newId));
    StoreIs(capacity, t.(steps := t.steps + 1), s, newId);
  }

  // A store that succeeds puts its picture into the target, or into the new file.
  lemma StoreIs(capacity: nat, u: State, s: FileId, newId: FileId)
    requires u.steps > 0 && s in u.flights && u.flights[s].pc.Store? && TargetExists(u, u.flights[s].pc.target)
    requires IsFresh(u, newId)
    ensures var r, pc := StepJob(capacity, u, s, u.flights[s], true, false, newId), u.flights[s].pc;
            var p := if pc.target.Some? then pc.target.value else newId;
            && r.sources == u.sources && r.known == u.known && r.callers == u.callers
            && r.previews == u.previews[p := Some(Pixels(s, pc.version))]
            && s in r.flights && r.flights[s].pc == Commit(pc.date, p, pc.target == None)
  {
    hide StepQuiet;
    if u.flights[s].pc.target.Some? {
    } else {
    }
  }

  lemma FromReadSource(capacity: nat, t: State, c: nat, s: FileId, date: int, newId: FileId, target: Option<FileId>)
    requires Waits(t, c, s, date, newId, ReadSource(date, target)) && TargetExists(t, target)
    ensures Wins(capacity, t, c, s, date, newId, 9)
  {
    hide Next, Wins;
    var t1 := Next(capacity, t, c, newId);
    var t2 := Next(capacity, t1, c, newId);
    var t3 := Next(capacity, t2, c, newId);
    QuietNext(capacity, t, c, s, date, newId, ReadSource(date, target));
    QuietNext(capacity, t1, c, s, date, newId, Render(date, target, date));
    StoreNext(capacity, t2, c, s, date, newId, target);
    FromCommit(capacity, t3, c, s, date, newId, if target.Some? then target.value else newId, target == None);
    WinsNext(capacity, t2, c, s, date, newId, 6);
    WinsNext(capacity, t1, c, s, date, newId, 7);
    WinsNext(capacity, t, c, s, date, newId, 8);
  }

  lemma FromAskMetadata(capacity: nat, t: State, c: nat, s: FileId, date: int, newId: FileId, mapped: Entry)
    requires Waits(t, c, s, date, newId, AskMetadata(date, mapped))
    ensures Wins(capacity, t, c, s, date, newId, 10)
  {
    hide Next, Wins;
    QuietNext(capacity, t, c, s, date, newId, AskMetadata(date, mapped));
    var target := if mapped.previewId in t.previews then Some(mapped.previewId) else None;
    FromReadSource(capacity, Next(capacity, t, c, newId), c, s, date, newId, target);
    WinsNext(capacity, t, c, s, date, newId, 9);
  }

  lemma FromRecheck(capacity: nat, t: State, c: nat, s: FileId, date: int, newId: FileId, mapped: Entry)
    requires Waits(t, c, s, date, newId, Recheck(date, mapped))
    requires s in t.mapping && t.mapping[s] == mapped && mapped.date == date
    ensures Wins(capacity, t, c, s, date, newId, 11)
  {
    hide Next, Wins;
    var r := Next(capacity, t, c, newId);
    QuietNext(capacity, t, c, s, date, newId, Recheck(date, mapped));
    if HasPixels(t, mapped.previewId) {
      FromFreeActive(capacity, r, c, s, date, newId, mapped);
      Later(capacity, r, c, s, date, newId, 5, 10);
    } else {
      FromAskMetadata(capacity, r, c, s, date, newId, mapped);
    }
    WinsNext(capacity, t, c, s, date, newId, 10);
  }

  lemma {:induction false} Later(capacity: nat, t: State, c: nat, s: FileId, date: int, newId: FileId, n: nat, m: nat)
    requires Wins(capacity, t, c, s, date, newId, n) && n <= m
    ensures Wins(capacity, t, c, s, date, newId, m)
    decreases m - n
  {
    hide Wins;
    if n < m {
      WinsLater(capacity, t, c, s, date, newId, n);
      Later(capacity, t, c, s, date, newId, n + 1, m);
    }
  }

  lemma FromFindTarget(capacity: nat, t: State, c: nat, s: FileId, date: int, newId: FileId)
    requires Waits(t, c, s, date, newId, FindTarget(date))
    ensures Wins(capacity, t, c, s, date, newId, 12)
  {
    hide Next, Wins;
    var r := Next(capacity, t, c, newId);
    QuietNext(capacity, t, c, s, date, newId, FindTarget(date));
    if s !in t.mapping {
      FromReadSource(capacity, r, c, s, date, newId, None);
      Later(capacity, r, c, s, date, newId, 9, 11);
    } else if t.mapping[s].date == date {
      FromRecheck(capacity, r, c, s, date, newId, t.mapping[s]);
    } else {
      FromAskMetadata(capacity, r, c, s, date, newId, t.mapping[s]);
      Later(capacity, r, c, s, date, newId, 10, 11);
    }
    WinsNext(capacity, t, c, s, date, newId, 11);
  }

  lemma FromAdmit(capacity: nat, t: State, c: nat, s: FileId, date: int, newId: FileId)
    requires Waits(t, c, s, date, newId, Admit) && HasRoom(capacity, t)
    ensures Wins(capacity, t, c, s, date, newId, 15)
  {
    hide Next, Wins;
    var t1 := Next(capacity, t, c, newId);
    var t2 := Next(capacity, t1, c, newId);
    var t3 := Next(capacity, t2, c, newId);
    QuietNext(capacity, t, c, s, date, newId, Admit);
    QuietNext(capacity, t1, c, s, date, newId, Activate);
    QuietNext(capacity, t2, c, s, date, newId, LookUpAgain);
    FromFindTarget(capacity, t3, c, s, date, newId);
    WinsNext(capacity, t2, c, s, date, newId, 12);
    WinsNext(capacity, t1, c, s, date, newId, 13);
    WinsNext(capacity, t, c, s, date, newId, 14);
  }

  lemma FromJoin(capacity: nat, t: State, c: nat, s: FileId, date: int, newId: FileId)
    requires Asks(t, c, s, date, newId, Join) && s !in t.flights && HasRoom(capacity, t)
    ensures Wins(capacity, t, c, s, date, newId, 16)
  {
    hide Next, Wins;
    ServeNext(capacity, t, c, newId);
    FromAdmit(capacity, Next(capacity, t, c, newId), c, s, date, newId);
    WinsNext(capacity, t, c, s, date, newId, 15);
  }

  lemma FromReadCached(capacity: nat, t: State, c: nat, s: FileId, date: int, newId: FileId, entry: Entry)
    requires Asks(t, c, s, date, newId, ReadCached(entry)) && s !in t.flights && HasRoom(capacity, t)
    requires s in t.mapping && t.mapping[s] == entry && entry.date == date
    ensures Wins(capacity, t, c, s, date, newId, 17)
  {
    hide Next;
    var r := Next(capacity, t, c, newId);
    ServeNext(capacity, t, c, newId);
    if HasPixels(t, entry.previewId) {
      assert Wins(capacity, r, c, s, date, newId, 0);
      Later(capacity, r, c, s, date, newId, 0, 16);
    } else {
      FromJoin(capacity, r, c, s, date, newId);
    }
    WinsNext(capacity, t, c, s, date, newId, 16);
  }

  lemma FromFindCached(capacity: nat, t: State, c: nat, s: FileId, date: int, newId: FileId)
    requires Asks(t, c, s, date, newId, FindCached) && s !in t.flights && HasRoom(capacity, t)
    ensures Wins(capacity, t, c, s, date, newId, 18)
  {
    hide Next, Wins;
    var r := Next(capacity, t, c, newId);
    ServeNext(capacity, t, c, newId);
    if s in t.mapping && t.mapping[s].date == date {
      FromReadCached(capacity, r, c, s, date, newId, t.mapping[s]);
    } else {
      FromJoin(capacity, r, c, s, date, newId);
      Later(capacity, r, c, s, date, newId, 16, 17);
    }
    WinsNext(capacity, t, c, s, date, newId, 17);
  }

  // The first two steps: the current date, and access to it.
  lemma ToFindCached(capacity: nat, t: State, c: nat, s: FileId, date: int, newId: FileId)
    requires Asks(t, c, s, date, newId, LookUp)
    ensures var r := Next(capacity, Next(capacity, t, c, newId), c, newId);
            && Asks(r, c, s, date, newId, FindCached) && SameTables(t, r)
            && r.flights == t.flights && r.slots == t.slots && r.active == t.active
  {
    hide Next;
    var t1 := Next(capacity, t, c, newId);
    ServeNext(capacity, t, c, newId);
    assert Asks(t1, c, s, date, newId, Authorize(Source(date, true)));
    ServeNext(capacity, t1, c, newId);
  }

  // A request for s has just come in, on top of this run.
  function Arrived(capacity: nat, evs: seq<Event>, c: nat, s: FileId, ifNoneMatch: Option<int>): State {
    Step(capacity, Exec(capacity, evs), Arrive(c, s, ifNoneMatch))
  }

  lemma ArrivedAsks(capacity: nat, evs: seq<Event>, c: nat, s: FileId, date: int, ifNoneMatch: Option<int>,
                    newId: FileId)
    requires var st := Exec(capacity, evs);
             s in st.sources && st.sources[s] == Source(date, true) && c !in st.callers && IsFresh(st, newId)
    requires ifNoneMatch != Some(date)
    ensures var st, t := Exec(capacity, evs), Arrived(capacity, evs, c, s, ifNoneMatch);
            && Asks(t, c, s, date, newId, LookUp) && SameTables(st, t)
            && (s !in st.flights ==> s !in t.flights) && t.slots == st.slots && t.active == st.active
  {
    hide Exec, StepJob, StepCaller, Inv;
    var st := Exec(capacity, evs);
    Reachable(capacity, evs);
    SourcesKnown(st);
    CurrentIsFine(capacity, evs, s, date);
  }

  lemma SourcesKnown(st: State)
    requires Inv(st)
    ensures st.sources.Keys <= st.known
  {
  }

  lemma CurrentIsFine(capacity: nat, evs: seq<Event>, s: FileId, date: int)
    requires var st := Exec(capacity, evs); s in st.sources && st.sources[s].date == date
    ensures MapFine(Exec(capacity, evs), s, date)
  {
    hide Exec;
    var st := Exec(capacity, evs);
    if s in st.mapping && HasPixels(st, st.mapping[s].previewId) {
      PreviewVersions.MappedVersionsAreReal(capacity, evs, s);
    }
  }

  /** A request for a previewable source, whose calls all succeed, while nobody saves or loses
      anything and the render queue has room, gets the source's current picture under its
      current date within twenty steps, whatever state the cache was in; and then the
      cache holds it. */
  lemma {:induction false} RequestIsServed(capacity: nat, evs: seq<Event>, c: nat, s: FileId, date: int,
                                           ifNoneMatch: Option<int>, newId: FileId)
    requires var st := Exec(capacity, evs);
             && s in st.sources && st.sources[s] == Source(date, true) && s !in st.flights && HasRoom(capacity, st)
             && c !in st.callers && IsFresh(st, newId)
    requires ifNoneMatch != Some(date)
    ensures Served(Drive(capacity, Arrived(capacity, evs, c, s, ifNoneMatch), c, newId, 20), c, s, date)
  {
    hide Exec, Next, Arrived;
    var t := Arrived(capacity, evs, c, s, ifNoneMatch);
    ArrivedAsks(capacity, evs, c, s, date, ifNoneMatch, newId);
    ToFindCached(capacity, t, c, s, date, newId);
    var t1 := Next(capacity, t, c, newId);
    FromFindCached(capacity, Next(capacity, t1, c, newId), c, s, date, newId);
    WinsNext(capacity, t1, c, s, date, newId, 18);
    WinsNext(capacity, t, c, s, date, newId, 19);
  }

  /** While the cache holds the current picture, a request for it is served in four steps from
      the cache, room in the queue or not: no flight takes off, and none of the semaphores moves. */
  lemma {:induction false} CachedIsServedWithoutAFlight(capacity: nat, evs: seq<Event>, c: nat, s: FileId, date: int,
                                                        ifNoneMatch: Option<int>, newId: FileId)
    requires var st := Exec(capacity, evs);
             && s in st.sources && st.sources[s] == Source(date, true) && Cached(st, s, date)
             && c !in st.callers && IsFresh(st, newId)
    requires ifNoneMatch != Some(date)
    ensures var t := Arrived(capacity, evs, c, s, ifNoneMatch);
            var r := Drive(capacity, t, c, newId, 4);
            && Served(r, c, s, date) && SameTables(t, r)
            && r.flights == t.flights && r.slots == t.slots && r.active == t.active
  {
    hide Exec, Next, Arrived;
    var t := Arrived(capacity, evs, c, s, ifNoneMatch);
    ArrivedAsks(capacity, evs, c, s, date, ifNoneMatch, newId);
    ToFindCached(capacity, t, c, s, date, newId);
    var t1 := Next(capacity, t, c, newId);
    var t2 := Next(capacity, t1, c, newId);
    ServeNext(capacity, t2, c, newId);
    var t3 := Next(capacity, t2, c, newId);
    ServeNext(capacity, t3, c, newId);
    FourSteps(capacity, t, c, newId);
  }

  lemma FourSteps(capacity: nat, t: State, c: nat, newId: FileId)
    ensures Drive(capacity, t, c, newId, 4)
         == Next(capacity, Next(capacity, Next(capacity, Next(capacity, t, c, newId), c, newId), c, newId), c, newId)
  {
    hide Next;
    var t2 := Next(capacity, Next(capacity, t, c, newId), c, newId);
    assert Drive(capacity, t, c, newId, 4) == Drive(capacity, t2, c, newId, 2);
    assert Drive(capacity, t2, c, newId, 2) == Drive(capacity, Next(capacity, t2, c, newId), c, newId, 1);
  }

  // The event that the next step is.
  function NextEvent(t: State, c: nat, newId: FileId): Event
    requires c in t.callers
  {
    if t.callers[c].pc.Waiting? then Work(t.callers[c].source, true, false, newId) else Serve(c, true, true)
  }

  lemma NextIs(capacity: nat, t: State, c: nat, newId: FileId)
    ensures Next(capacity, t, c, newId) == if c in t.callers then Step(capacity, t, NextEvent(t, c, newId)) else t
  {
    hide Step;
  }

  // These events follow this run and lead here.
  ghost predicate Leads(capacity: nat, evs: seq<Event>, more: seq<Event>, n: nat, t: State) {
    |more| <= n && Exec(capacity, evs + more) == t
  }

  lemma LeadsOn(capacity: nat, evs: seq<Event>, e: Event, more: seq<Event>, n: nat, t: State)
    requires Leads(capacity, evs + [e], more, n, t)
    ensures Leads(capacity, evs, [e] + more, n + 1, t)
  {
    hide Exec;
    assert evs + [e] + more == evs + ([e] + more);
  }

  // Such a course of events is a run like any other.
  lemma {:induction false} DriveIsARun(capacity: nat, evs: seq<Event>, c: nat, newId: FileId, n: nat)
    ensures exists more: seq<Event> ::
              Leads(capacity, evs, more, n, Drive(capacity, Exec(capacity, evs), c, newId, n))
    decreases n
  {
    hide Exec, Step, Next, NextEvent, Leads;
    var st := Exec(capacity, evs);
    if n == 0 {
      LeadsNowhere(capacity, evs);
      assert Leads(capacity, evs, [], n, Drive(capacity, st, c, newId, n));
    } else {
      NextIs(capacity, st, c, newId);
      if c in st.callers {
        var e := NextEvent(st, c, newId);
        ExecAppend(capacity, evs, e);
        DriveIsARun(capacity, evs + [e], c, newId, n - 1);
        var end := Drive(capacity, Exec(capacity, evs + [e]), c, newId, n - 1);
        var more :| Leads(capacity, evs + [e], more, n - 1, end);
        LeadsOn(capacity, evs, e, more, n - 1, end);
        assert Drive(capacity, st, c, newId, n) == end;
      } else {
        DriveIsARun(capacity, evs, c, newId, n - 1);
        var end := Drive(capacity, st, c, newId, n - 1);
        var more :| Leads(capacity, evs, more, n - 1, end);
        LeadsLater(capacity, evs, more, n - 1, end);
        assert Drive(capacity, st, c, newId, n) == end;
      }
    }
  }

  lemma LeadsNowhere(capacity: nat, evs: seq<Event>)
    ensures Leads(capacity, evs, [], 0, Exec(capacity, evs))
  {
    hide Exec;
    assert evs + [] == evs;
  }

  lemma LeadsLater(capacity: nat, evs: seq<Event>, more: seq<Event>, n: nat, t: State)
    requires Leads(capacity, evs, more, n, t)
    ensures Leads(capacity, evs, more, n + 1, t)
  {
    hide Exec;
  }

  /** Put together: from any such state there is a run on which the request is served, and
      after which the next one, conditional or not on another date, needs no flight. */
  lemma {:induction false} TheNextRequestNeedsNoFlight(capacity: nat, evs: seq<Event>, c: nat, s: FileId, date: int,
                                                       newId: FileId, next: nat, ifNoneMatch: Option<int>,
                                                       nextId: FileId)
    requires var st := Exec(capacity, evs);
             && s in st.sources && st.sources[s] == Source(date, true) && s !in st.flights && HasRoom(capacity, st)
             && c !in st.callers && IsFresh(st, newId)
    requires ifNoneMatch != Some(date)
    ensures exists more: seq<Event> ::
              && |more| <= 21 && Served(Exec(capacity, evs + more), c, s, date)
              && (next !in Exec(capacity, evs + more).callers && IsFresh(Exec(capacity, evs + more), nextId) ==>
                    var t := Arrived(capacity, evs + more, next, s, ifNoneMatch);
                    var r := Drive(capacity, t, next, nextId, 4);
                    Served(r, next, s, date) && SameTables(t, r) && r.flights == t.flights)
  {
    hide Exec, Step, Served, Drive, SameTables, IsFresh;
    RequestIsServed(capacity, evs, c, s, date, None, newId);
    ExecAppend(capacity, evs, Arrive(c, s, None));
    DriveIsARun(capacity, evs + [Arrive(c, s, None)], c, newId, 20);
    var rest :| Leads(capacity, evs + [Arrive(c, s, None)], rest, 20,
                      Drive(capacity, Arrived(capacity, evs, c, s, None), c, newId, 20));
    var more := [Arrive(c, s, None)] + rest;
    assert evs + [Arrive(c, s, None)] + rest == evs + more;
    var end := Exec(capacity, evs + more);
    if next !in end.callers && IsFresh(end, nextId) {
      ServedMeans(end, c, s, date);
      CachedIsServedWithoutAFlight(capacity, evs + more, next, s, date, ifNoneMatch, nextId);
    }
  }

  lemma ServedMeans(t: State, c: nat, s: FileId, date: int)
    requires Served(t, c, s, date)
    ensures s in t.sources && t.sources[s] == Source(date, true) && Cached(t, s, date)
  {
  }
}
