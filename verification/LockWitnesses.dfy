/** Runs of the lock protocol on which the code does what its documentation does not say. */
module LockWitnesses {
  import opened Wrappers
  import opened LockTable
  import opened LockProtocol
  import opened Permissions

  const MINUTE: int := 60 * 1_000_000

  const LOCKED: Call := Call("f", Lock("a"), Finished(Granted), 0, 1, None, 0)

  // "a" has just locked the file.
  function LockedState(): State {
    State(0, map["f" := Row("a", LOCK_DURATION, 0)], map[], map[0 := LOCKED], 4)
  }

  function LockedRun(): seq<Event> {
    [] + [Begin(0, "f", Lock("a"))] + [Advance(0, Up)] + [Advance(0, Up)] + [Advance(0, Up)]
  }

  lemma LockedRuns(maxLifetime: int)
    ensures Exec(maxLifetime, LockedRun()) == LockedState()
  {
    var evs1: seq<Event> := [] + [Begin(0, "f", Lock("a"))];
    ExecAppend(maxLifetime, [], Begin(0, "f", Lock("a")));
    ExecAppend(maxLifetime, evs1, Advance(0, Up));
    ExecAppend(maxLifetime, evs1 + [Advance(0, Up)], Advance(0, Up));
    ExecAppend(maxLifetime, evs1 + [Advance(0, Up)] + [Advance(0, Up)], Advance(0, Up));
  }

  const SLOW: Call := Call("f", Refresh("a"), Committing(Extend("a", LOCK_DURATION)), 4, 5,
                           Some(Row("a", LOCK_DURATION, 0)), 0)

  // A first refresh has sampled its clock, and is slow to reach the database.
  function SlowState(): State {
    LockedState().(calls := map[0 := LOCKED, 1 := SLOW], steps := 7)
  }

  function SlowRun(): seq<Event> {
    LockedRun() + [Begin(1, "f", Refresh("a"))] + [Advance(1, Up)] + [Advance(1, Up)]
  }

  lemma SlowRuns(maxLifetime: int)
    ensures Exec(maxLifetime, SlowRun()) == SlowState()
  {
    hide Exec;
    LockedRuns(maxLifetime);
    var begun := LockedRun() + [Begin(1, "f", Refresh("a"))];
    ExecAppend(maxLifetime, LockedRun(), Begin(1, "f", Refresh("a")));
    ExecAppend(maxLifetime, begun, Advance(1, Up));
    ExecAppend(maxLifetime, begun + [Advance(1, Up)], Advance(1, Up));
  }

  // Twenty minutes later a second refresh runs from start to end, and fifteen more pass.
  function OvertakenRun(): seq<Event> {
    SlowRun() + [Tick(20 * MINUTE)] + [Begin(2, "f", Refresh("a"))] + [Advance(2, Up)] + [Advance(2, Up)]
    + [Advance(2, Up)] + [Tick(15 * MINUTE)]
  }

  lemma OvertakenRuns(maxLifetime: int)
    ensures var s := Exec(maxLifetime, OvertakenRun());
            && s.now == 35 * MINUTE && s.rows == map["f" := Row("a", 50 * MINUTE, 0)]
            && 1 in s.calls && s.calls[1] == SLOW && 2 in s.calls && s.calls[2].pc == Finished(Granted)
  {
    hide Exec;
    SlowRuns(maxLifetime);
    var late := SlowRun() + [Tick(20 * MINUTE)];
    var begun := late + [Begin(2, "f", Refresh("a"))];
    ExecAppend(maxLifetime, SlowRun(), Tick(20 * MINUTE));
    ExecAppend(maxLifetime, late, Begin(2, "f", Refresh("a")));
    ExecAppend(maxLifetime, begun, Advance(2, Up));
    ExecAppend(maxLifetime, begun + [Advance(2, Up)], Advance(2, Up));
    ExecAppend(maxLifetime, begun + [Advance(2, Up)] + [Advance(2, Up)], Advance(2, Up));
    ExecAppend(maxLifetime, begun + [Advance(2, Up)] + [Advance(2, Up)] + [Advance(2, Up)], Tick(15 * MINUTE));
  }

  /** A refresh that reaches the database a lock duration after it sampled its clock, while
      another refresh has kept the lock alive, succeeds, and ends its own holder's lock. */
  lemma LateRefreshEndsItsOwnLock(maxLifetime: int)
    ensures exists evs: seq<Event> ::
              && |evs| == 14
              && HolderAt(maxLifetime, evs, 13, "f") == Some("a") && HolderAt(maxLifetime, evs, 14, "f") == None
              && 1 in Exec(maxLifetime, evs).calls
              && Exec(maxLifetime, evs).calls[1].op == Refresh("a")
              && Exec(maxLifetime, evs).calls[1].pc == Finished(Granted)
  {
    hide Exec;
    var past := OvertakenRun();
    var evs := past + [Advance(1, Up)];
    OvertakenRuns(maxLifetime);
    ExecAppend(maxLifetime, past, Advance(1, Up));
    assert evs[..13] == past && evs[..14] == evs;
  }

  const SAVING: Call := Call("f", Put(READ_WRITE, ""), Storing, 0, 1, None, 0)

  // A save has found the file unlocked, and is about to write it.
  function SavingRun(): seq<Event> {
    [] + [Begin(0, "f", Put(READ_WRITE, ""))] + [Advance(0, Up)]
  }

  lemma SavingRuns(maxLifetime: int)
    ensures Exec(maxLifetime, SavingRun()) == State(0, map[], map[], map[0 := SAVING], 2)
  {
    hide Exec, Split;
    MintedStrings("write");
    EmptyRun(maxLifetime);
    ExecAppend(maxLifetime, [], Begin(0, "f", Put(READ_WRITE, "")));
    ExecAppend(maxLifetime, [] + [Begin(0, "f", Put(READ_WRITE, ""))], Advance(0, Up));
  }

  // Meanwhile "a" locks it.
  function LockedMeanwhile(): seq<Event> {
    SavingRun() + [Begin(1, "f", Lock("a"))] + [Advance(1, Up)] + [Advance(1, Up)] + [Advance(1, Up)]
  }

  lemma LockedMeanwhileRuns(maxLifetime: int)
    ensures var s := Exec(maxLifetime, LockedMeanwhile());
            && s.now == 0 && s.rows == map["f" := Row("a", LOCK_DURATION, 0)] && s.contents == map[]
            && 0 in s.calls && s.calls[0] == SAVING && 1 in s.calls && s.calls[1].pc == Finished(Granted)
  {
    hide Exec, Split;
    SavingRuns(maxLifetime);
    var begun := SavingRun() + [Begin(1, "f", Lock("a"))];
    ExecAppend(maxLifetime, SavingRun(), Begin(1, "f", Lock("a")));
    ExecAppend(maxLifetime, begun, Advance(1, Up));
    ExecAppend(maxLifetime, begun + [Advance(1, Up)], Advance(1, Up));
    ExecAppend(maxLifetime, begun + [Advance(1, Up)] + [Advance(1, Up)], Advance(1, Up));
  }

  /** A save that sent no lock ID lands, and is reported as done, while another session holds
      the lock. */
  lemma SaveLandsUnderAForeignLock(maxLifetime: int)
    ensures exists evs: seq<Event> ::
              && |evs| == 7
              && HolderAt(maxLifetime, evs, 6, "f") == HolderAt(maxLifetime, evs, 7, "f") == Some("a")
              && At(maxLifetime, evs, 6).contents == map[] && At(maxLifetime, evs, 7).contents == map["f" := 0]
              && 0 in Exec(maxLifetime, evs).calls
              && Exec(maxLifetime, evs).calls[0].op == Put(READ_WRITE, "")
              && Exec(maxLifetime, evs).calls[0].pc == Finished(Granted)
  {
    hide Exec, Split;
    var past := LockedMeanwhile();
    var evs := past + [Advance(0, Up)];
    LockedMeanwhileRuns(maxLifetime);
    ExecAppend(maxLifetime, past, Advance(0, Up));
    assert evs[..6] == past && evs[..7] == evs;
  }
}
