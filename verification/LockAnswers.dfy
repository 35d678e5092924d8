/** What every step of every lock operation does to the tables and answers, on every run,
    in terms of the table, the clock and what the call itself has read. */
module LockAnswers {
  import opened Wrappers
  import opened LockTable
  import opened LockProtocol
  import opened LockInvariant
  import opened Permissions
  import LockTheorems

  // The lock on the file, if there is one in force.
  predicate Locked(s: State, file: string) {
    file in s.rows && s.rows[file].expiresAt > s.now
  }

  predicate LockedUnder(s: State, file: string, id: string) {
    Locked(s, file) && s.rows[file].lockId == id
  }

  // What a conflict quotes when it is found at this instant.
  function Quoted(s: State, file: string): string {
    if Locked(s, file) then s.rows[file].lockId else ""
  }

  predicate RowNamed(s: State, file: string, id: string) {
    file in s.rows && s.rows[file].lockId == id
  }

  // Event i is a step of call c, which has not been answered.
  ghost predicate Moves(maxLifetime: int, evs: seq<Event>, i: nat, c: nat, link: Link)
    requires i < |evs|
  {
    && evs[i] == Advance(c, link)
    && c in At(maxLifetime, evs, i).calls && !At(maxLifetime, evs, i).calls[c].pc.Finished?
  }

  ghost predicate SameTables(s: State, t: State) {
    t.rows == s.rows && t.contents == s.contents
  }

  // The call goes on, or has its answer.
  ghost predicate GoesOn(t: State, c: nat) {
    c in t.calls && !t.calls[c].pc.Finished?
  }

  ghost predicate Answered(t: State, c: nat, outcome: Outcome) {
    c in t.calls && t.calls[c].pc == Finished(outcome)
  }

  /** A call is answered as soon as it comes in exactly if its arguments are empty where they
      must not be, or its token does not grant writing. */
  lemma ArrivalAnswers(maxLifetime: int, evs: seq<Event>, i: nat, c: nat, file: string, op: Op)
    requires i < |evs| && evs[i] == Begin(c, file, op) && c !in At(maxLifetime, evs, i).calls
    ensures var s, t := At(maxLifetime, evs, i), At(maxLifetime, evs, i + 1);
            && SameTables(s, t)
            && c in t.calls && t.calls[c].file == file && t.calls[c].op == op
            && (match op
                case Lock(id) => if id == "" then Answered(t, c, BadRequest) else t.calls[c].pc.Reading?
                case Relock(newId, oldId) =>
                  if newId == "" || oldId == "" then Answered(t, c, BadRequest) else t.calls[c].pc.Reading?
                case Put(permissions, _) =>
                  if "write" in Split(permissions) then t.calls[c].pc.Reading? else Answered(t, c, Forbidden)
                case _ => t.calls[c].pc.Reading?)
  {
    NextState(maxLifetime, evs, i);
  }

  /** The read of the lock table: an error ends the call; an unlock, refresh or relock goes on
      exactly if the file is locked under the ID it names, a save exactly if the file is
      unlocked or locked under the nonempty ID it sent, and otherwise they are answered with
      the lock in force; a query is answered with it. */
  lemma ReadAnswers(maxLifetime: int, evs: seq<Event>, i: nat, c: nat, link: Link)
    requires i < |evs| && Moves(maxLifetime, evs, i, c, link) && At(maxLifetime, evs, i).calls[c].pc.Reading?
    ensures var s, t := At(maxLifetime, evs, i), At(maxLifetime, evs, i + 1);
            var file, op := s.calls[c].file, s.calls[c].op;
            && SameTables(s, t)
            && c in t.calls && t.calls[c].file == file && t.calls[c].op == op
            && (link != Up ==> Answered(t, c, Failed))
            && (link == Up ==>
                  && t.calls[c].readAt == i
                  && match op
                     case Lock(_) => t.calls[c].pc.Clocking?
                     case Unlock(id) =>
                       if LockedUnder(s, file, id) then t.calls[c].pc.Committing?
                       else Answered(t, c, Conflict(Quoted(s, file)))
                     case Refresh(id) =>
                       if LockedUnder(s, file, id) then t.calls[c].pc.Clocking?
                       else Answered(t, c, Conflict(Quoted(s, file)))
                     case Relock(_, id) =>
                       if LockedUnder(s, file, id) then t.calls[c].pc.Clocking?
                       else Answered(t, c, Conflict(Quoted(s, file)))
                     case Put(_, id) =>
                       if !Locked(s, file) || (id != "" && LockedUnder(s, file, id)) then t.calls[c].pc.Storing?
                       else Answered(t, c, Conflict(Quoted(s, file)))
                     case Query => Answered(t, c, Status(if Locked(s, file) then Some(s.rows[file]) else None)))
  {
    NextState(maxLifetime, evs, i);
  }

  // What the call found when it last read the table.
  ghost function Seen(maxLifetime: int, evs: seq<Event>, call: Call): State {
    if call.readAt <= |evs| then At(maxLifetime, evs, call.readAt) else Init()
  }

  // The call is to take the lock it has seen over, as things stand at this instant.
  ghost predicate TakesOver(maxLifetime: int, seen: State, call: Call, now: int) {
    && call.op.Lock? && Locked(seen, call.file) && seen.rows[call.file].lockId != call.op.lockId
    && maxLifetime > 0 && now - seen.rows[call.file].createdAt > maxLifetime
  }

  /** The sampling of the clock: it ends the call exactly if it is a Lock that has seen another
      lock which is not too old, and quotes that lock. */
  lemma ClockAnswers(maxLifetime: int, evs: seq<Event>, i: nat, c: nat, link: Link)
    requires i < |evs| && Moves(maxLifetime, evs, i, c, link) && At(maxLifetime, evs, i).calls[c].pc.Clocking?
    ensures var s, t := At(maxLifetime, evs, i), At(maxLifetime, evs, i + 1);
            var call := s.calls[c];
            && SameTables(s, t) && call.readAt < i
            && c in t.calls && t.calls[c].file == call.file && t.calls[c].op == call.op
            && t.calls[c].readAt == call.readAt && t.calls[c].sample == s.now
            && var seen := Seen(maxLifetime, evs, call);
               if call.op.Lock? && Locked(seen, call.file) && seen.rows[call.file].lockId != call.op.lockId
                  && !TakesOver(maxLifetime, seen, call, s.now)
               then Answered(t, c, Conflict(seen.rows[call.file].lockId))
               else t.calls[c].pc.Committing?
  {
    ReadFacts(maxLifetime, evs, i, c);
    NextState(maxLifetime, evs, i);
  }

  lemma ReadFacts(maxLifetime: int, evs: seq<Event>, i: nat, c: nat)
    requires i <= |evs| && c in At(maxLifetime, evs, i).calls
    requires var pc := At(maxLifetime, evs, i).calls[c].pc; !pc.Reading? && !pc.Finished?
    ensures var call := At(maxLifetime, evs, i).calls[c];
            && PointOk(maxLifetime, call) && call.readAt < i
            && var seen := At(maxLifetime, evs, call.readAt);
               call.snap == Find(seen.rows, seen.now, call.file)
  {
    Reachable(maxLifetime, evs[..i]);
    var call := At(maxLifetime, evs, i).calls[c];
    assert CallOk(maxLifetime, evs[..i], c, call);
    SamePast(maxLifetime, evs, i, call.readAt);
  }

  // Whether the statement of the call finds the row it is for, and what it makes of the table
  // if it does. Only a creation always does.
  ghost predicate Applies(maxLifetime: int, evs: seq<Event>, s: State, call: Call) {
    var seen := Seen(maxLifetime, evs, call);
    match call.op
    case Unlock(id) => RowNamed(s, call.file, id)
    case Refresh(id) => LockedUnder(s, call.file, id)
    case Relock(_, id) => LockedUnder(s, call.file, id)
    case Lock(id) =>
      if !Locked(seen, call.file) then true
      else if seen.rows[call.file].lockId == id then LockedUnder(s, call.file, id)
      else RowNamed(s, call.file, seen.rows[call.file].lockId)
    case _ => false
  }

  // A lock lasts thirty minutes from the instant the call looked at the clock.
  ghost function Effect(maxLifetime: int, evs: seq<Event>, s: State, call: Call): Table
    requires Applies(maxLifetime, evs, s, call)
  {
    var seen, expires := Seen(maxLifetime, evs, call), call.sample + 1_800_000_000;
    match call.op
    case Unlock(_) => s.rows - {call.file}
    case Refresh(id) => s.rows[call.file := Row(id, expires, s.rows[call.file].createdAt)]
    case Relock(newId, _) => s.rows[call.file := Row(newId, expires, s.rows[call.file].createdAt)]
    case Lock(id) =>
      if Locked(seen, call.file) && seen.rows[call.file].lockId != id
      then s.rows[call.file := Row(id, expires, call.sample)]
      else
        var since := if call.file in s.rows then s.rows[call.file].createdAt else call.sample;
        s.rows[call.file := Row(id, expires, since)]
  }

  /** The conditional write: a statement that finds its row has its effect, and one that does
      not changes nothing, whatever is reported; an error ends the call as failed; without
      one, it is granted if the statement found its row, and otherwise answered with an empty
      conflict, except that a lost takeover goes on to look again. */
  lemma CommitAnswers(maxLifetime: int, evs: seq<Event>, i: nat, c: nat, link: Link)
    requires i < |evs| && Moves(maxLifetime, evs, i, c, link) && At(maxLifetime, evs, i).calls[c].pc.Committing?
    ensures var s, t := At(maxLifetime, evs, i), At(maxLifetime, evs, i + 1);
            var call := s.calls[c];
            && call.readAt < i && t.contents == s.contents
            && c in t.calls && t.calls[c].file == call.file && t.calls[c].op == call.op
            && (t.rows == if link != DownBefore && Applies(maxLifetime, evs, s, call)
                          then Effect(maxLifetime, evs, s, call) else s.rows)
            && (if link != Up then Answered(t, c, Failed)
                else if Applies(maxLifetime, evs, s, call) then Answered(t, c, Granted)
                else if TakesOver(maxLifetime, Seen(maxLifetime, evs, call), call, call.sample)
                then t.calls[c].pc.Refetching?
                else Answered(t, c, Conflict("")))
  {
    ReadFacts(maxLifetime, evs, i, c);
    NextState(maxLifetime, evs, i);
    CommitIs(maxLifetime, At(maxLifetime, evs, i), c, link);
    var s := At(maxLifetime, evs, i);
    StatementIs(maxLifetime, evs, s, s.calls[c]);
  }

  lemma CommitIs(maxLifetime: int, s: State, c: nat, link: Link)
    requires c in s.calls && s.calls[c].pc.Committing?
    ensures var t, call := Step(maxLifetime, s, Advance(c, link)), s.calls[c];
            var found := Matches(call.pc.stmt, s.rows, s.now, call.file);
            && t.contents == s.contents && c in t.calls
            && t.rows == (if link == DownBefore then s.rows else Apply(call.pc.stmt, s.rows, s.now, call.file))
            && t.calls[c] == call.(pc := if link != Up then Finished(Failed)
                                         else if found then Finished(Granted)
                                         else if call.pc.stmt.Take? then Refetching else Finished(Conflict("")))
  {
    hide Apply, Matches;
  }

  // The statement that a call has chosen is the one its operation is for.
  lemma StatementIs(maxLifetime: int, evs: seq<Event>, s: State, call: Call)
    requires call.readAt <= |evs| && call.pc.Committing? && PointOk(maxLifetime, call)
    requires var seen := Seen(maxLifetime, evs, call); call.snap == Find(seen.rows, seen.now, call.file)
    ensures var stmt := call.pc.stmt;
            && (Matches(stmt, s.rows, s.now, call.file) <==> Applies(maxLifetime, evs, s, call))
            && (Applies(maxLifetime, evs, s, call) ==>
                  Apply(stmt, s.rows, s.now, call.file) == Effect(maxLifetime, evs, s, call))
            && (!Matches(stmt, s.rows, s.now, call.file) ==> Apply(stmt, s.rows, s.now, call.file) == s.rows)
            && (stmt.Take? <==> TakesOver(maxLifetime, Seen(maxLifetime, evs, call), call, call.sample))
  {
    hide At, Seen;
    match call.op
    case Lock(_) =>
    case Unlock(_) =>
    case Refresh(_) =>
    case Relock(_, _) =>
    case Put(_, _) =>
    case Query =>
  }

  /** The second look after a lost takeover ends the call with the lock then in force. */
  lemma RefetchAnswers(maxLifetime: int, evs: seq<Event>, i: nat, c: nat, link: Link)
    requires i < |evs| && Moves(maxLifetime, evs, i, c, link) && At(maxLifetime, evs, i).calls[c].pc.Refetching?
    ensures var s, t := At(maxLifetime, evs, i), At(maxLifetime, evs, i + 1);
            && SameTables(s, t)
            && Answered(t, c, if link == Up then Conflict(Quoted(s, s.calls[c].file)) else Failed)
  {
    NextState(maxLifetime, evs, i);
  }

  /** The write of a save: unless the call fails without effect, the file holds what the save
      brought; it is granted exactly if no error is reported. */
  lemma StoreAnswers(maxLifetime: int, evs: seq<Event>, i: nat, c: nat, link: Link)
    requires i < |evs| && Moves(maxLifetime, evs, i, c, link) && At(maxLifetime, evs, i).calls[c].pc.Storing?
    ensures var s, t := At(maxLifetime, evs, i), At(maxLifetime, evs, i + 1);
            && t.rows == s.rows
            && t.contents == (if link == DownBefore then s.contents else s.contents[s.calls[c].file := c])
            && Answered(t, c, if link == Up then Granted else Failed)
  {
    NextState(maxLifetime, evs, i);
  }

  /** The passing of time changes no row, and a sweep removes exactly the rows that expired
      before now; neither touches the files or the calls. */
  lemma SweepsAndTicks(maxLifetime: int, evs: seq<Event>, i: nat)
    requires i < |evs| && (evs[i].CleanUp? || evs[i].Tick?)
    ensures var s, t := At(maxLifetime, evs, i), At(maxLifetime, evs, i + 1);
            && t.contents == s.contents && t.calls == s.calls
            && (forall f :: f in t.rows ==> f in s.rows && t.rows[f] == s.rows[f])
            && (forall f :: f in s.rows ==>
                  (f in t.rows <==> (evs[i].CleanUp? && evs[i].link != DownBefore ==> s.rows[f].expiresAt >= s.now)))
            && t.now == (if evs[i].Tick? && evs[i].delta > 0 then s.now + evs[i].delta else s.now)
  {
    hide Exec;
    NextState(maxLifetime, evs, i);
  }

  /** Nobody else moves a call, and an answer stands. */
  lemma CallsRest(maxLifetime: int, evs: seq<Event>, i: nat, c: nat)
    requires i < |evs| && c in At(maxLifetime, evs, i).calls
    requires !(evs[i].Advance? && evs[i].c == c) || At(maxLifetime, evs, i).calls[c].pc.Finished?
    ensures c in At(maxLifetime, evs, i + 1).calls
    ensures At(maxLifetime, evs, i + 1).calls[c] == At(maxLifetime, evs, i).calls[c]
  {
    NextState(maxLifetime, evs, i);
  }

  lemma {:induction false} CallRestsUntil(maxLifetime: int, evs: seq<Event>, i: nat, k: nat, c: nat)
    requires i <= k <= |evs| && c in At(maxLifetime, evs, i).calls
    requires forall m :: i <= m < k ==> !(evs[m].Advance? && evs[m].c == c)
    ensures c in At(maxLifetime, evs, k).calls
    ensures At(maxLifetime, evs, k).calls[c] == At(maxLifetime, evs, i).calls[c]
    decreases k
  {
    if i < k {
      CallRestsUntil(maxLifetime, evs, i, k - 1, c);
      CallsRest(maxLifetime, evs, k - 1, c);
    }
  }

  lemma {:induction false} AnswersStand(maxLifetime: int, evs: seq<Event>, i: nat, k: nat, c: nat)
    requires i <= k <= |evs| && c in At(maxLifetime, evs, i).calls && At(maxLifetime, evs, i).calls[c].pc.Finished?
    ensures c in At(maxLifetime, evs, k).calls
    ensures At(maxLifetime, evs, k).calls[c] == At(maxLifetime, evs, i).calls[c]
    decreases k
  {
    if i < k {
      AnswersStand(maxLifetime, evs, i, k - 1, c);
      CallsRest(maxLifetime, evs, k - 1, c);
    }
  }

  /** A lost race: an unlock, a refresh, a relock, or a Lock of the ID that the file is already
      locked under, whose statement finds no row any more, is answered with an empty
      conflict; so a Lock that takes over looks again, and is then answered with the lock in
      force at its next step. */
  lemma LostRaceAnswers(maxLifetime: int, evs: seq<Event>, i: nat, k: nat, c: nat)
    requires i < k < |evs| && Moves(maxLifetime, evs, i, c, Up) && At(maxLifetime, evs, i).calls[c].pc.Committing?
    requires !Applies(maxLifetime, evs, At(maxLifetime, evs, i), At(maxLifetime, evs, i).calls[c])
    requires forall m :: i < m < k ==> !(evs[m].Advance? && evs[m].c == c)
    requires evs[k] == Advance(c, Up)
    ensures var call := At(maxLifetime, evs, i).calls[c];
            if TakesOver(maxLifetime, Seen(maxLifetime, evs, call), call, call.sample)
            then && GoesOn(At(maxLifetime, evs, k), c)
                 && Answered(At(maxLifetime, evs, k + 1), c, Conflict(Quoted(At(maxLifetime, evs, k), call.file)))
            else Answered(At(maxLifetime, evs, i + 1), c, Conflict(""))
  {
    hide At, Seen, TakesOver, Applies, Quoted;
    CommitAnswers(maxLifetime, evs, i, c, Up);
    var call := At(maxLifetime, evs, i).calls[c];
    if TakesOver(maxLifetime, Seen(maxLifetime, evs, call), call, call.sample) {
      CallRestsUntil(maxLifetime, evs, i + 1, k, c);
      RefetchAnswers(maxLifetime, evs, k, c, Up);
    }
  }

  /** An error reported by the database or by file-service always ends a call as failed. */
  lemma ErrorsEndCalls(maxLifetime: int, evs: seq<Event>, i: nat, c: nat, link: Link)
    requires i < |evs| && Moves(maxLifetime, evs, i, c, link) && link != Up
    requires !At(maxLifetime, evs, i).calls[c].pc.Clocking?
    ensures Answered(At(maxLifetime, evs, i + 1), c, Failed)
  {
    hide At;
    match At(maxLifetime, evs, i).calls[c].pc
    case Reading => ReadAnswers(maxLifetime, evs, i, c, link);
    case Committing(_) => CommitAnswers(maxLifetime, evs, i, c, link);
    case Refetching => RefetchAnswers(maxLifetime, evs, i, c, link);
    case Storing => StoreAnswers(maxLifetime, evs, i, c, link);
  }

  /** What a save answers is what it has done: the step that grants it writes its file; a step
      that fails it writes its file or nothing; no other step writes anything. */
  lemma SaveStep(maxLifetime: int, evs: seq<Event>, i: nat, c: nat, link: Link)
    requires i < |evs| && Moves(maxLifetime, evs, i, c, link) && At(maxLifetime, evs, i).calls[c].op.Put?
    ensures var s, t := At(maxLifetime, evs, i), At(maxLifetime, evs, i + 1);
            var written := s.contents[s.calls[c].file := c];
            && c in t.calls && t.calls[c].file == s.calls[c].file && t.calls[c].op == s.calls[c].op
            && (Answered(t, c, Granted) ==> t.contents == written)
            && (Answered(t, c, Failed) ==> t.contents == written || t.contents == s.contents)
            && (!Answered(t, c, Granted) && !Answered(t, c, Failed) ==> t.contents == s.contents)
  {
    hide At, Seen, TakesOver, Applies, Effect, Quoted, Locked, LockedUnder;
    var pc := At(maxLifetime, evs, i).calls[c].pc;
    SavesDoNotLock(maxLifetime, evs, i, c);
    if pc.Reading? {
      ReadAnswers(maxLifetime, evs, i, c, link);
    } else {
      StoreAnswers(maxLifetime, evs, i, c, link);
      CallKeepsItsFile(maxLifetime, evs, i, c, link);
    }
  }

  lemma SavesDoNotLock(maxLifetime: int, evs: seq<Event>, i: nat, c: nat)
    requires i <= |evs| && c in At(maxLifetime, evs, i).calls && At(maxLifetime, evs, i).calls[c].op.Put?
    ensures var pc := At(maxLifetime, evs, i).calls[c].pc; pc.Reading? || pc.Storing? || pc.Finished?
  {
    Reachable(maxLifetime, evs[..i]);
    assert CallOk(maxLifetime, evs[..i], c, At(maxLifetime, evs, i).calls[c]);
  }

  lemma CallKeepsItsFile(maxLifetime: int, evs: seq<Event>, i: nat, c: nat, link: Link)
    requires i < |evs| && Moves(maxLifetime, evs, i, c, link)
    ensures var s, t := At(maxLifetime, evs, i), At(maxLifetime, evs, i + 1);
            c in t.calls && t.calls[c].file == s.calls[c].file && t.calls[c].op == s.calls[c].op
  {
    NextState(maxLifetime, evs, i);
  }

  // Event k is a step of call c, answered or not.
  ghost predicate StepOf(evs: seq<Event>, k: nat, c: nat)
    requires k < |evs|
  {
    evs[k].Advance? && evs[k].c == c
  }

  ghost predicate Writes(maxLifetime: int, evs: seq<Event>, k: nat, file: string, c: nat)
    requires k < |evs|
  {
    StepOf(evs, k, c) && At(maxLifetime, evs, k + 1).contents == At(maxLifetime, evs, k).contents[file := c]
  }

  ghost predicate Idles(maxLifetime: int, evs: seq<Event>, k: nat)
    requires k < |evs|
  {
    At(maxLifetime, evs, k + 1).contents == At(maxLifetime, evs, k).contents
  }

  /** Over a whole run: a save that was granted has written its file at one of its steps, and
      nothing at the others; one that failed has written its file or nothing; and one that
      was answered anything else, or has no answer yet, has written nothing at all. */
  lemma {:induction false} SavesDoWhatTheyAnswer(maxLifetime: int, evs: seq<Event>, n: nat, c: nat)
    requires n <= |evs| && c in At(maxLifetime, evs, n).calls && At(maxLifetime, evs, n).calls[c].op.Put?
    ensures var call := At(maxLifetime, evs, n).calls[c];
            && (call.pc == Finished(Granted) ==>
                  exists k :: 0 <= k < n && Writes(maxLifetime, evs, k, call.file, c)
                              && forall m :: 0 <= m < n && m != k && StepOf(evs, m, c) ==> Idles(maxLifetime, evs, m))
            && (call.pc == Finished(Failed) ==>
                  forall m :: 0 <= m < n && StepOf(evs, m, c) ==>
                    Idles(maxLifetime, evs, m) || Writes(maxLifetime, evs, m, call.file, c))
            && (call.pc != Finished(Granted) && call.pc != Finished(Failed) ==>
                  forall m :: 0 <= m < n && StepOf(evs, m, c) ==> Idles(maxLifetime, evs, m))
    decreases n
  {
    hide At, Writes, Idles, Moves;
    NothingAtFirst(maxLifetime, evs);
    if n > 0 {
      LastStep(maxLifetime, evs, n, c);
      if c in At(maxLifetime, evs, n - 1).calls {
        SavesDoWhatTheyAnswer(maxLifetime, evs, n - 1, c);
      }
    }
  }

  lemma NothingAtFirst(maxLifetime: int, evs: seq<Event>)
    ensures At(maxLifetime, evs, 0).calls == map[]
  {
  }

  // What the last event before n says of the save.
  lemma LastStep(maxLifetime: int, evs: seq<Event>, n: nat, c: nat)
    requires 0 < n <= |evs| && c in At(maxLifetime, evs, n).calls && At(maxLifetime, evs, n).calls[c].op.Put?
    ensures var s, t := At(maxLifetime, evs, n - 1), At(maxLifetime, evs, n);
            if c !in s.calls then
              && t.calls[c].pc != Finished(Granted) && t.calls[c].pc != Finished(Failed)
              && (forall m :: 0 <= m < n && StepOf(evs, m, c) ==> Idles(maxLifetime, evs, m))
            else
              && t.calls[c].op == s.calls[c].op && t.calls[c].file == s.calls[c].file
              && (s.calls[c].pc.Finished? ==> t.calls[c].pc == s.calls[c].pc)
              && (!StepOf(evs, n - 1, c) ==> t.calls[c].pc == s.calls[c].pc)
              && (StepOf(evs, n - 1, c) && s.calls[c].pc.Finished? ==> Idles(maxLifetime, evs, n - 1))
              && (StepOf(evs, n - 1, c) && !s.calls[c].pc.Finished? ==>
                    && (t.calls[c].pc == Finished(Granted) ==> Writes(maxLifetime, evs, n - 1, t.calls[c].file, c))
                    && (t.calls[c].pc == Finished(Failed) ==>
                          Idles(maxLifetime, evs, n - 1) || Writes(maxLifetime, evs, n - 1, t.calls[c].file, c))
                    && (t.calls[c].pc != Finished(Granted) && t.calls[c].pc != Finished(Failed) ==>
                          Idles(maxLifetime, evs, n - 1)))
  {
    hide Exec;
    NextState(maxLifetime, evs, n - 1);
    if c !in At(maxLifetime, evs, n - 1).calls {
      NoStepsBefore(maxLifetime, evs, n - 1, c);
      assert !StepOf(evs, n - 1, c);
    } else if StepOf(evs, n - 1, c) && !At(maxLifetime, evs, n - 1).calls[c].pc.Finished? {
      SaveStep(maxLifetime, evs, n - 1, c, evs[n - 1].link);
    }
  }

  // Before a call begins, its steps do nothing.
  lemma {:induction false} NoStepsBefore(maxLifetime: int, evs: seq<Event>, n: nat, c: nat)
    requires n <= |evs| && c !in At(maxLifetime, evs, n).calls
    ensures forall m :: 0 <= m < n && StepOf(evs, m, c) ==> Idles(maxLifetime, evs, m)
    decreases n
  {
    hide Exec;
    if n > 0 {
      NextState(maxLifetime, evs, n - 1);
      NoStepsBefore(maxLifetime, evs, n - 1, c);
    }
  }
}
