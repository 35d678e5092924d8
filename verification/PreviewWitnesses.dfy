/** A run of the preview cache on which the clean-up of an uncommitted file hits one that a
    mapping names. */
module PreviewWitnesses {
  import opened Wrappers
  import opened PreviewProtocol
  import PreviewTheorems

  function Asked(pc: CallerPc): Caller {
    Caller("s", None, pc, 1, 2, true, true)
  }

  // The only request there is waits for the job of its source, which is at this point.
  function Flying(job: Job, slots: int, active: int, steps: nat): State {
    State(map["s" := Source(1, true)], map[], map[], map["s" := job], map[0 := Asked(Waiting)],
          slots, active, map[], {"s"}, {}, {}, {}, steps)
  }

  function AskRun(): seq<Event> {
    [] + [NewSource("s", 1, true)] + [Arrive(0, "s", None)] + [Serve(0, true, true)] + [Serve(0, true, true)]
  }

  lemma AskRuns(capacity: nat)
    ensures Exec(capacity, AskRun())
         == State(map["s" := Source(1, true)], map[], map[], map[], map[0 := Asked(FindCached).(leader := false)],
                  0, 0, map[], {"s"}, {}, {}, {}, 4)
  {
    hide Exec;
    assert Exec(capacity, []) == Init() by { EmptyRun(capacity); }
    var known := [] + [NewSource("s", 1, true)];
    var arrived := known + [Arrive(0, "s", None)];
    ExecAppend(capacity, [], NewSource("s", 1, true));
    ExecAppend(capacity, known, Arrive(0, "s", None));
    ExecAppend(capacity, arrived, Serve(0, true, true));
    ExecAppend(capacity, arrived + [Serve(0, true, true)], Serve(0, true, true));
  }

  lemma EmptyRun(capacity: nat)
    ensures Exec(capacity, []) == Init()
  {
  }

  function JoinRun(): seq<Event> {
    AskRun() + [Serve(0, true, true)] + [Serve(0, true, true)]
  }

  lemma JoinRuns(capacity: nat)
    ensures Exec(capacity, JoinRun()) == Flying(Job(Admit, 0, 0, 0, 0, None, false), 0, 0, 6)
  {
    hide Exec;
    AskRuns(capacity);
    ExecAppend(capacity, AskRun(), Serve(0, true, true));
    ExecAppend(capacity, AskRun() + [Serve(0, true, true)], Serve(0, true, true));
  }

  const GO_ON: Event := Work("s", true, false, "")

  function TargetRun(): seq<Event> {
    JoinRun() + [GO_ON] + [GO_ON] + [GO_ON] + [GO_ON]
  }

  lemma TargetRuns(capacity: nat)
    ensures Exec(capacity, TargetRun()) == Flying(Job(ReadSource(1, None), 8, 0, 0, 0, None, false), 1, 1, 10)
  {
    hide Exec;
    JoinRuns(capacity);
    ExecAppend(capacity, JoinRun(), GO_ON);
    ExecAppend(capacity, JoinRun() + [GO_ON], GO_ON);
    ExecAppend(capacity, JoinRun() + [GO_ON] + [GO_ON], GO_ON);
    ExecAppend(capacity, JoinRun() + [GO_ON] + [GO_ON] + [GO_ON], GO_ON);
  }

  // File-service has stored the picture as a new file.
  const CREATED: Event := Work("s", true, false, "p")

  function CreatedRun(): seq<Event> {
    TargetRun() + [GO_ON] + [GO_ON] + [CREATED]
  }

  lemma CreatedRuns(capacity: nat)
    ensures Exec(capacity, CreatedRun())
         == Flying(Job(Commit(1, "p", true), 8, 1, 0, 1, None, false), 1, 1, 13)
            .(previews := map["p" := Some(Pixels("s", 1))], owner := map["p" := "s"])
  {
    hide Exec;
    TargetRuns(capacity);
    ExecAppend(capacity, TargetRun(), GO_ON);
    ExecAppend(capacity, TargetRun() + [GO_ON], GO_ON);
    ExecAppend(capacity, TargetRun() + [GO_ON] + [GO_ON], CREATED);
  }

  // The mapping is updated, and reported as not updated.
  const BETRAYED: Event := Work("s", false, true, "")

  /** If the first update of a mapping is reported as failed although it happened, the
      clean-up deletes the very file that the mapping names. */
  lemma CleanUpHitsAMappedFile(capacity: nat)
    ensures exists evs: seq<Event> ::
              && |evs| == 15
              && "s" in At(capacity, evs, 14).flights && At(capacity, evs, 14).flights["s"].pc == Discard("p")
              && "p" in At(capacity, evs, 14).previews && "p" !in At(capacity, evs, 15).previews
              && PreviewTheorems.MappedAt(capacity, evs, 14, "s", "p")
              && PreviewTheorems.MappedAt(capacity, evs, 15, "s", "p")
  {
    hide Exec;
    CreatedRuns(capacity);
    var betrayed := CreatedRun() + [BETRAYED];
    var evs := betrayed + [GO_ON];
    ExecAppend(capacity, CreatedRun(), BETRAYED);
    ExecAppend(capacity, betrayed, GO_ON);
    assert evs[..14] == betrayed && evs[..15] == evs;
  }
}
