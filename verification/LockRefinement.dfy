/** Run one at a time and without takeovers, the operations on the lock table behave
    like operations on a plain map of unexpired leases, of which the cleanup sweep is
    no part at all. With takeovers the sweep shows, because a lock acquired over an
    expired row that has not been swept inherits that row's age. */
module LockRefinement {
  import opened Wrappers
  import opened LockTable
  import opened LockProtocol
  import opened Permissions

  datatype Lease = Lease(lockId: string, expiresAt: int)

  // `contents` says which call last wrote a file, as in the lock protocol.
  datatype Leases = Leases(now: int, live: map<string, Lease>, contents: map<string, nat>)

  function Abstraction(s: State): Leases {
    Leases(s.now,
           map f | f in s.rows && s.rows[f].expiresAt > s.now :: Lease(s.rows[f].lockId, s.rows[f].expiresAt),
           s.contents)
  }

  // What a caller learns: the age of a lock is not reported.
  function Visible(outcome: Outcome): Outcome {
    if outcome.Status? && outcome.found.Some? then Status(Some(outcome.found.value.(createdAt := 0))) else outcome
  }

  predicate MayUse(l: Leases, file: string, id: string) {
    file !in l.live || l.live[file].lockId == id
  }

  predicate Holds(l: Leases, file: string, id: string) {
    file in l.live && l.live[file].lockId == id
  }

  function HeldId(l: Leases, file: string): string {
    if file in l.live then l.live[file].lockId else ""
  }

  function Grant(l: Leases, file: string, id: string): Leases {
    l.(live := l.live[file := Lease(id, l.now + LOCK_DURATION)])
  }

  // The operations as the WOPI lock semantics describe them; a save that is granted is the
  // one that has last written its file.
  function Serve(l: Leases, file: string, op: Op, c: nat): (Leases, Outcome) {
    match op
    case Lock(id) =>
      if id == "" then (l, BadRequest)
      else if MayUse(l, file, id) then (Grant(l, file, id), Granted)
      else (l, Conflict(HeldId(l, file)))
    case Unlock(id) =>
      if Holds(l, file, id) then (l.(live := l.live - {file}), Granted) else (l, Conflict(HeldId(l, file)))
    case Refresh(id) =>
      if Holds(l, file, id) then (Grant(l, file, id), Granted) else (l, Conflict(HeldId(l, file)))
    case Relock(newId, id) =>
      if newId == "" || id == "" then (l, BadRequest)
      else if Holds(l, file, id) then (Grant(l, file, newId), Granted)
      else (l, Conflict(HeldId(l, file)))
    case Put(permissions, id) =>
      if "write" !in Split(permissions) then (l, Forbidden)
      else if file !in l.live || (id != "" && Holds(l, file, id)) then (l.(contents := l.contents[file := c]), Granted)
      else (l, Conflict(HeldId(l, file)))
    case Query =>
      (l, Status(if file in l.live then Some(Row(l.live[file].lockId, l.live[file].expiresAt, 0)) else None))
  }

  function Pass(l: Leases, delay: nat): Leases {
    Leases(l.now + delay, map f | f in l.live && l.live[f].expiresAt > l.now + delay :: l.live[f], l.contents)
  }

  datatype Item = Do(file: string, op: Op) | Wait(delay: nat) | Clean(link: Link)

  // What the callers of a script see, the lock table starting in state s.
  function Answers(maxLifetime: int, s: State, script: seq<Item>): seq<Outcome>
    decreases script
  {
    if script == [] then [] else
    match script[0]
    case Do(file, op) =>
      var t := Solo(maxLifetime, s, s.steps, file, op);
      (if s.steps in t.calls && t.calls[s.steps].pc.Finished? then [Visible(t.calls[s.steps].pc.outcome)] else [])
      + Answers(maxLifetime, t, script[1..])
    case Wait(delay) => Answers(maxLifetime, Step(maxLifetime, s, Tick(delay)), script[1..])
    case Clean(link) => Answers(maxLifetime, Step(maxLifetime, s, CleanUp(link)), script[1..])
  }

  // Where a script leads.
  function After(maxLifetime: int, s: State, script: seq<Item>): State
    decreases script
  {
    if script == [] then s else
    match script[0]
    case Do(file, op) => After(maxLifetime, Solo(maxLifetime, s, s.steps, file, op), script[1..])
    case Wait(delay) => After(maxLifetime, Step(maxLifetime, s, Tick(delay)), script[1..])
    case Clean(link) => After(maxLifetime, Step(maxLifetime, s, CleanUp(link)), script[1..])
  }

  // What they see of the map of leases, which has no sweep, and where the script leads it. A
  // call is named by the instant at which it begins, and takes four steps.
  function LeaseAnswers(l: Leases, n: nat, script: seq<Item>): seq<Outcome>
    decreases script
  {
    if script == [] then [] else
    match script[0]
    case Do(file, op) => [Serve(l, file, op, n).1] + LeaseAnswers(Serve(l, file, op, n).0, n + 4, script[1..])
    case Wait(delay) => LeaseAnswers(Pass(l, delay), n + 1, script[1..])
    case Clean(_) => LeaseAnswers(l, n + 1, script[1..])
  }

  function LeasesAfter(l: Leases, n: nat, script: seq<Item>): Leases
    decreases script
  {
    if script == [] then l else
    match script[0]
    case Do(file, op) => LeasesAfter(Serve(l, file, op, n).0, n + 4, script[1..])
    case Wait(delay) => LeasesAfter(Pass(l, delay), n + 1, script[1..])
    case Clean(_) => LeasesAfter(l, n + 1, script[1..])
  }

  function Unswept(script: seq<Item>): seq<Item> {
    if script == [] then [] else (if script[0].Clean? then [] else [script[0]]) + Unswept(script[1..])
  }

  // Where a call run on its own ends, and the table and the contents it leaves.
  function SoloEnd(maxLifetime: int, s: State, file: string, op: Op): (Table, map<string, nat>, Pc) {
    var snap := Find(s.rows, s.now, file);
    var pc := if FirstPc(op).Finished? then FirstPc(op) else AfterRead(op, snap);
    var pc' := if pc.Clocking? then AfterClock(op, snap, s.now, maxLifetime) else pc;
    match pc'
    case Committing(stmt) =>
      (Apply(stmt, s.rows, s.now, file), s.contents, AfterCommit(stmt, Matches(stmt, s.rows, s.now, file), Up))
    case Storing => (s.rows, s.contents[file := s.steps], Finished(Granted))
    case _ => (s.rows, s.contents, pc')
  }

  // One step of the only call that is running, by program point.
  function Next(maxLifetime: int, s: State, c: nat): State {
    Step(maxLifetime, s, Advance(c, Up))
  }

  lemma NextIs(maxLifetime: int, s: State, c: nat)
    requires c in s.calls
    ensures var call, t := s.calls[c], Next(maxLifetime, s, c);
            && t.now == s.now && t.steps == s.steps + 1 && t.calls.Keys == s.calls.Keys
            && t.calls[c].file == call.file && t.calls[c].op == call.op
            && (!call.pc.Committing? ==> t.rows == s.rows)
            && t.contents == (if call.pc.Storing? then s.contents[call.file := c] else s.contents)
            && (call.pc.Reading? ==> t.calls[c].snap == Find(s.rows, s.now, call.file))
            && (call.pc.Reading? ==> t.calls[c].pc == AfterRead(call.op, t.calls[c].snap))
            && (call.pc.Clocking? ==> t.calls[c].pc == AfterClock(call.op, call.snap, s.now, maxLifetime))
            && (call.pc.Committing? ==> t.rows == Apply(call.pc.stmt, s.rows, s.now, call.file))
            && (call.pc.Committing? ==>
                  t.calls[c].pc == AfterCommit(call.pc.stmt, Matches(call.pc.stmt, s.rows, s.now, call.file), Up))
            && (call.pc.Storing? ==> t.calls[c].pc == Finished(Granted))
            && (call.pc.Finished? ==> t.calls[c].pc == call.pc)
  {
  }

  lemma BeginIs(maxLifetime: int, s: State, c: nat, file: string, op: Op)
    requires c !in s.calls
    ensures var t := Step(maxLifetime, s, Begin(c, file, op));
            && t.now == s.now && t.rows == s.rows && t.contents == s.contents
            && t.steps == s.steps + 1 && t.calls.Keys == s.calls.Keys + {c}
            && t.calls[c].file == file && t.calls[c].op == op && t.calls[c].pc == FirstPc(op)
  {
  }

  // A takeover with nobody to race against does not lose.
  lemma NoLostTakeover(maxLifetime: int, s: State, file: string, op: Op)
    requires AfterClock(op, Find(s.rows, s.now, file), s.now, maxLifetime).Committing?
    ensures var stmt := AfterClock(op, Find(s.rows, s.now, file), s.now, maxLifetime).stmt;
            stmt.Take? ==> Matches(stmt, s.rows, s.now, file)
  {
    match op
    case Lock(_) =>
    case _ =>
  }

  lemma Shapes(maxLifetime: int, op: Op, snap: Option<Row>, now: int)
    ensures FirstPc(op).Finished? || FirstPc(op).Reading?
    ensures var pc := AfterRead(op, snap);
            pc.Clocking? || pc.Storing? || pc.Finished? || (pc.Committing? && pc.stmt.Delete?)
    ensures var pc := AfterClock(op, snap, now, maxLifetime); pc.Committing? || pc.Finished?
  {
    match op
    case Lock(_) =>
    case _ =>
  }

  lemma SoloEnds(maxLifetime: int, s: State, file: string, op: Op)
    requires s.steps !in s.calls
    ensures var t := Solo(maxLifetime, s, s.steps, file, op);
            var (rows, contents, pc) := SoloEnd(maxLifetime, s, file, op);
            && t.rows == rows && t.contents == contents && t.now == s.now && t.steps == s.steps + 4
            && t.calls.Keys == s.calls.Keys + {s.steps} && t.calls[s.steps].pc == pc && pc.Finished?
  {
    hide Step, Find, Apply, AfterRead, AfterClock, FirstPc;
    var c := s.steps;
    var s1 := Step(maxLifetime, s, Begin(c, file, op));
    var s2 := Next(maxLifetime, s1, c);
    var s3 := Next(maxLifetime, s2, c);
    BeginIs(maxLifetime, s, c, file, op);
    NextIs(maxLifetime, s1, c);
    NextIs(maxLifetime, s2, c);
    NextIs(maxLifetime, s3, c);
    var snap := Find(s.rows, s.now, file);
    Shapes(maxLifetime, op, snap, s.now);
    if s2.calls[c].pc.Clocking? && s3.calls[c].pc.Committing? {
      NoLostTakeover(maxLifetime, s, file, op);
    }
  }

  // What a call run on its own does, seen through the leases.
  ghost predicate EndIsServe(maxLifetime: int, s: State, file: string, op: Op) {
    var (rows, contents, pc) := SoloEnd(maxLifetime, s, file, op);
    var (after, outcome) := Serve(Abstraction(s), file, op, s.steps);
    && pc.Finished? && Visible(pc.outcome) == outcome
    && Abstraction(s.(rows := rows)).live == after.live && contents == after.contents
  }

  lemma LockRefines(maxLifetime: int, s: State, file: string, id: string)
    requires maxLifetime <= 0
    ensures EndIsServe(maxLifetime, s, file, Lock(id))
  {
    if id != "" && MayUse(Abstraction(s), file, id) {
      RowIs(s, SoloEnd(maxLifetime, s, file, Lock(id)).0, file, Serve(Abstraction(s), file, Lock(id), s.steps).0.live);
    }
  }

  lemma UnlockRefines(maxLifetime: int, s: State, file: string, id: string)
    ensures EndIsServe(maxLifetime, s, file, Unlock(id))
  {
    if Holds(Abstraction(s), file, id) {
      var op := Unlock(id);
      RowIs(s, SoloEnd(maxLifetime, s, file, op).0, file, Serve(Abstraction(s), file, op, s.steps).0.live);
    }
  }

  lemma RefreshRefines(maxLifetime: int, s: State, file: string, id: string)
    ensures EndIsServe(maxLifetime, s, file, Refresh(id))
  {
    if Holds(Abstraction(s), file, id) {
      var op := Refresh(id);
      RowIs(s, SoloEnd(maxLifetime, s, file, op).0, file, Serve(Abstraction(s), file, op, s.steps).0.live);
    }
  }

  lemma RelockRefines(maxLifetime: int, s: State, file: string, newId: string, id: string)
    ensures EndIsServe(maxLifetime, s, file, Relock(newId, id))
  {
    if newId != "" && id != "" && Holds(Abstraction(s), file, id) {
      var op := Relock(newId, id);
      RowIs(s, SoloEnd(maxLifetime, s, file, op).0, file, Serve(Abstraction(s), file, op, s.steps).0.live);
    }
  }

  lemma EndRefines(maxLifetime: int, s: State, file: string, op: Op)
    requires maxLifetime <= 0
    ensures EndIsServe(maxLifetime, s, file, op)
  {
    match op
    case Lock(id) => LockRefines(maxLifetime, s, file, id);
    case Unlock(id) => UnlockRefines(maxLifetime, s, file, id);
    case Refresh(id) => RefreshRefines(maxLifetime, s, file, id);
    case Relock(newId, id) => RelockRefines(maxLifetime, s, file, newId, id);
    case Put(_, _) =>
    case Query =>
  }

  // Changing one row changes at most that file's lease.
  lemma RowIs(s: State, rows: Table, file: string, after: map<string, Lease>)
    requires forall f :: f != file ==> (f in rows <==> f in s.rows)
    requires forall f :: f != file && f in rows ==> rows[f] == s.rows[f]
    requires forall f :: f != file ==> (f in after <==> f in Abstraction(s).live)
    requires forall f :: f != file && f in after ==> after[f] == Abstraction(s).live[f]
    requires file in after <==> (file in rows && rows[file].expiresAt > s.now)
    requires file in after ==> after[file] == Lease(rows[file].lockId, rows[file].expiresAt)
    ensures Abstraction(s.(rows := rows)).live == after
  {
  }

  lemma {:induction false} SoloRefines(maxLifetime: int, s: State, file: string, op: Op)
    requires maxLifetime <= 0 && s.steps !in s.calls
    ensures var t := Solo(maxLifetime, s, s.steps, file, op);
            && Abstraction(t) == Serve(Abstraction(s), file, op, s.steps).0
            && s.steps in t.calls && t.calls[s.steps].pc.Finished?
            && Visible(t.calls[s.steps].pc.outcome) == Serve(Abstraction(s), file, op, s.steps).1
  {
    SoloEnds(maxLifetime, s, file, op);
    EndRefines(maxLifetime, s, file, op);
    assert Abstraction(Solo(maxLifetime, s, s.steps, file, op)).live
        == Abstraction(s.(rows := SoloEnd(maxLifetime, s, file, op).0)).live;
  }

  lemma SweepRefines(maxLifetime: int, s: State, link: Link)
    ensures Abstraction(Step(maxLifetime, s, CleanUp(link))) == Abstraction(s)
  {
    assert Abstraction(Step(maxLifetime, s, CleanUp(link))).live == Abstraction(s).live;
  }

  lemma WaitRefines(maxLifetime: int, s: State, delay: nat)
    ensures Abstraction(Step(maxLifetime, s, Tick(delay))) == Pass(Abstraction(s), delay)
  {
    assert Abstraction(Step(maxLifetime, s, Tick(delay))).live == Pass(Abstraction(s), delay).live;
  }

  /** The lock table refines the map of leases on every script, when takeover is disabled. */
  lemma {:induction false} TableRefinesLeases(maxLifetime: int, s: State, script: seq<Item>)
    requires maxLifetime <= 0
    requires forall c :: c in s.calls ==> c < s.steps
    ensures Answers(maxLifetime, s, script) == LeaseAnswers(Abstraction(s), s.steps, script)
    ensures Abstraction(After(maxLifetime, s, script)) == LeasesAfter(Abstraction(s), s.steps, script)
    decreases script
  {
    if script == [] {
    } else {
      match script[0]
      case Do(file, op) =>
        SoloEnds(maxLifetime, s, file, op);
        SoloRefines(maxLifetime, s, file, op);
        TableRefinesLeases(maxLifetime, Solo(maxLifetime, s, s.steps, file, op), script[1..]);
      case Wait(delay) =>
        WaitRefines(maxLifetime, s, delay);
        TableRefinesLeases(maxLifetime, Step(maxLifetime, s, Tick(delay)), script[1..]);
      case Clean(link) =>
        SweepRefines(maxLifetime, s, link);
        TableRefinesLeases(maxLifetime, Step(maxLifetime, s, CleanUp(link)), script[1..]);
    }
  }

  // What is answered depends neither on the contents nor on the names of the calls.
  lemma ServeIsBlind(l: Leases, k: Leases, file: string, op: Op, n: nat, m: nat)
    requires l.now == k.now && l.live == k.live
    ensures var (after, outcome) := Serve(l, file, op, n);
            var (after', outcome') := Serve(k, file, op, m);
            after.now == after'.now && after.live == after'.live && outcome == outcome'
  {
  }

  lemma {:induction false} LeasesIgnoreSweeps(l: Leases, n: nat, k: Leases, m: nat, script: seq<Item>)
    requires l.now == k.now && l.live == k.live
    ensures LeaseAnswers(l, n, script) == LeaseAnswers(k, m, Unswept(script))
    decreases script
  {
    hide Serve, Pass;
    if script == [] {
    } else {
      if !script[0].Clean? {
        assert Unswept(script)[0] == script[0] && Unswept(script)[1..] == Unswept(script[1..]);
      } else {
        assert Unswept(script) == Unswept(script[1..]);
      }
      match script[0]
      case Do(file, op) =>
        ServeIsBlind(l, k, file, op, n, m);
        LeasesIgnoreSweeps(Serve(l, file, op, n).0, n + 4, Serve(k, file, op, m).0, m + 4, script[1..]);
      case Wait(delay) =>
        PassIsBlind(l, k, delay);
        LeasesIgnoreSweeps(Pass(l, delay), n + 1, Pass(k, delay), m + 1, script[1..]);
      case Clean(_) => LeasesIgnoreSweeps(l, n + 1, k, m, script[1..]);
    }
  }

  lemma PassIsBlind(l: Leases, k: Leases, delay: nat)
    requires l.now == k.now && l.live == k.live
    ensures Pass(l, delay).now == Pass(k, delay).now && Pass(l, delay).live == Pass(k, delay).live
  {
  }

  // Scripts unfold from the front.
  lemma AnswersCons(maxLifetime: int, s: State, item: Item, rest: seq<Item>)
    ensures item.Wait? ==>
              Answers(maxLifetime, s, [item] + rest)
              == Answers(maxLifetime, Step(maxLifetime, s, Tick(item.delay)), rest)
    ensures item.Clean? ==>
              Answers(maxLifetime, s, [item] + rest)
              == Answers(maxLifetime, Step(maxLifetime, s, CleanUp(item.link)), rest)
    ensures item.Do? && s.steps !in s.calls ==>
              var t := Solo(maxLifetime, s, s.steps, item.file, item.op);
              && s.steps in t.calls && t.calls[s.steps].pc.Finished?
              && Answers(maxLifetime, s, [item] + rest)
              == [Visible(t.calls[s.steps].pc.outcome)] + Answers(maxLifetime, t, rest)
    ensures Unswept([item] + rest) == if item.Clean? then Unswept(rest) else [item] + Unswept(rest)
  {
    assert ([item] + rest)[1..] == rest;
    if item.Do? && s.steps !in s.calls {
      SoloEnds(maxLifetime, s, item.file, item.op);
    }
  }

  // The shortest script on which the sweep shows: the second lock is acquired over the
  // expired row of the first, and a third session asks for the file at once.
  const LATER: seq<Item> := [Do("f", Lock("b"))] + ([Do("f", Lock("c"))] + [])

  function Revealing(maxLifetime: nat, sweep: bool): seq<Item> {
    [Do("f", Lock("a"))] + ([Wait(maxLifetime + LOCK_DURATION)] + (if sweep then [Clean(Up)] + LATER else LATER))
  }

  lemma LaterAnswers(maxLifetime: int, s: State)
    requires forall c :: c in s.calls ==> c < s.steps
    requires Find(s.rows, s.now, "f") == None
    ensures var age := if "f" in s.rows then s.now - s.rows["f"].createdAt else 0;
      Answers(maxLifetime, s, LATER)
      == [Granted, if maxLifetime > 0 && age > maxLifetime then Granted else Conflict("b")]
  {
    hide Step, Solo;
    SoloEnds(maxLifetime, s, "f", Lock("b"));
    AnswersCons(maxLifetime, s, Do("f", Lock("b")), [Do("f", Lock("c"))] + []);
    var t := Solo(maxLifetime, s, s.steps, "f", Lock("b"));
    SoloEnds(maxLifetime, t, "f", Lock("c"));
    AnswersCons(maxLifetime, t, Do("f", Lock("c")), []);
  }

  // The state in which the sweep either comes or does not.
  function Expired(maxLifetime: nat): State {
    var s := Solo(maxLifetime, Init(), 0, "f", Lock("a"));
    Step(maxLifetime, s, Tick(maxLifetime + LOCK_DURATION))
  }

  lemma ExpiredIs(maxLifetime: nat)
    ensures var t := Expired(maxLifetime);
            && t.rows == map["f" := Row("a", LOCK_DURATION, 0)] && t.now == maxLifetime + LOCK_DURATION
            && t.calls.Keys == {0} && t.steps == 5
  {
    SoloEnds(maxLifetime, Init(), "f", Lock("a"));
  }

  lemma SweepShows(maxLifetime: nat, sweep: bool)
    requires maxLifetime > 0
    ensures Answers(maxLifetime, Init(), Revealing(maxLifetime, sweep))
         == [Granted, Granted, if sweep then Conflict("b") else Granted]
  {
    hide Step, Solo, Answers;
    var rest := if sweep then [Clean(Up)] + LATER else LATER;
    AnswersCons(maxLifetime, Init(), Do("f", Lock("a")), [Wait(maxLifetime + LOCK_DURATION)] + rest);
    SoloEnds(maxLifetime, Init(), "f", Lock("a"));
    AnswersCons(maxLifetime, Solo(maxLifetime, Init(), 0, "f", Lock("a")), Wait(maxLifetime + LOCK_DURATION), rest);
    assert Answers(maxLifetime, Init(), Revealing(maxLifetime, sweep))
        == [Granted] + Answers(maxLifetime, Expired(maxLifetime), rest);
    RestShows(maxLifetime, sweep);
  }

  lemma RestShows(maxLifetime: nat, sweep: bool)
    requires maxLifetime > 0
    ensures Answers(maxLifetime, Expired(maxLifetime), if sweep then [Clean(Up)] + LATER else LATER)
         == [Granted, if sweep then Conflict("b") else Granted]
  {
    ExpiredIs(maxLifetime);
    var t := Expired(maxLifetime);
    if sweep {
      AnswersCons(maxLifetime, t, Clean(Up), LATER);
      LaterAnswers(maxLifetime, Step(maxLifetime, t, CleanUp(Up)));
    } else {
      LaterAnswers(maxLifetime, t);
    }
  }

  /** The sweep changes no answer of any one-at-a-time script exactly when takeovers are
      disabled. */
  lemma SweepInvisibleIffNoTakeover(maxLifetime: int)
    ensures maxLifetime <= 0 <==>
            (forall script :: Answers(maxLifetime, Init(), script) == Answers(maxLifetime, Init(), Unswept(script)))
  {
    if maxLifetime <= 0 {
      forall script
        ensures Answers(maxLifetime, Init(), script) == Answers(maxLifetime, Init(), Unswept(script))
      {
        TableRefinesLeases(maxLifetime, Init(), script);
        TableRefinesLeases(maxLifetime, Init(), Unswept(script));
        LeasesIgnoreSweeps(Abstraction(Init()), 0, Abstraction(Init()), 0, script);
      }
    } else {
      SweepShows(maxLifetime, true);
      SweepShows(maxLifetime, false);
      UnsweptRevealing(maxLifetime);
    }
  }

  lemma UnsweptRevealing(maxLifetime: nat)
    ensures Unswept(Revealing(maxLifetime, true)) == Revealing(maxLifetime, false)
  {
    var wait := Wait(maxLifetime + LOCK_DURATION);
    AnswersCons(maxLifetime, Init(), Do("f", Lock("a")), [wait] + ([Clean(Up)] + LATER));
    AnswersCons(maxLifetime, Init(), wait, [Clean(Up)] + LATER);
    AnswersCons(maxLifetime, Init(), Clean(Up), LATER);
    AnswersCons(maxLifetime, Init(), Do("f", Lock("b")), [Do("f", Lock("c"))] + []);
    AnswersCons(maxLifetime, Init(), Do("f", Lock("c")), []);
  }
}
