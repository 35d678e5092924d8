/** ContributionWindow as it is written. Every execution of its methods is a run of the
    state machine of Contribution. */
module ContributionWindowModel {
  import opened SortedNames
  import C = Contribution

  // What publishing one document does to the counters and to the flush.
  lemma PublishIs(s: C.State, t: C.State, k: nat, file: string, writers: seq<string>, readers: seq<string>,
                  accepted: bool)
    requires k in s.flushes && file in s.flushes[k].rest && file in s.flushes[k].taken
    requires Lists(writers, s.flushes[k].taken[file].writers) && Lists(readers, s.flushes[k].taken[file].readers)
    requires var doc, f := s.flushes[k].taken[file], s.flushes[k];
             && t.docs == s.docs && t.steps == s.steps + 1
             && t.flushes == s.flushes[k := f.(rest := f.rest - {file})]
             && (if C.HasActors(doc) then
                   && (var message := C.Message(C.TopicOf(doc), file, writers, readers);
                       t.attempts == s.attempts + [C.Attempt(k, message, accepted)])
                   && t.emitted == s.emitted + (if accepted then 1 else 0)
                   && t.publishFail == s.publishFail + (if accepted then 0 else 1)
                 else t.attempts == s.attempts && t.emitted == s.emitted && t.publishFail == s.publishFail)
    ensures t == C.Step(s, C.Publish(k, file, writers, readers, accepted))
  {
  }

  class ContributionWindow {
    var docs: C.Window
    var emitted: nat
    var publishFail: nat
    var flushes: map<nat, C.Flush>   // the local variables of the flushes in progress
    var attempts: seq<C.Attempt>     // what the publisher has been asked
    var steps: nat
    ghost var events: seq<C.Event>

    ghost function View(): C.State
      reads this
    {
      C.State(docs, flushes, attempts, emitted, publishFail, steps)
    }

    ghost predicate Valid()
      reads this
    {
      View() == C.Exec(events)
    }

    constructor ()
      ensures Valid() && events == []
    {
      docs, emitted, publishFail, flushes, attempts, steps := map[], 0, 0, map[], [], 0;
      events := [];
    }

    method AddActor(fileID: string, actorID: string, isWrite: bool)
      requires Valid()
      modifies this
      ensures Valid() && events == old(events) + [C.AddActor(fileID, actorID, isWrite)]
      ensures flushes == old(flushes) && attempts == old(attempts)
    {
      if fileID != "" && actorID != "" {
        var d := C.Entry(docs, fileID);
        if isWrite {
          d := d.(writers := d.writers + {actorID});
        } else {
          d := d.(readers := d.readers + {actorID});
        }
        docs := docs[fileID := d];
      }
      steps := steps + 1;
      C.ExecAppend(events, C.AddActor(fileID, actorID, isWrite));
      events := events + [C.AddActor(fileID, actorID, isWrite)];
    }

    method MarkModified(fileID: string)
      requires Valid()
      modifies this
      ensures Valid() && events == old(events) + [C.MarkModified(fileID)]
      ensures flushes == old(flushes) && attempts == old(attempts)
    {
      if fileID != "" {
        docs := docs[fileID := C.Entry(docs, fileID).(modified := true)];
      }
      steps := steps + 1;
      C.ExecAppend(events, C.MarkModified(fileID));
      events := events + [C.MarkModified(fileID)];
    }

    // The critical section of flush: the window is taken and a new one put in its place.
    method TakeWindow() returns (k: nat, snapshot: C.Window)
      requires Valid()
      modifies this
      ensures Valid() && events == old(events) + [C.Swap] && k == old(|events|)
      ensures snapshot == old(docs) && docs == map[] && attempts == old(attempts)
      ensures flushes == old(flushes)[k := C.Flush(snapshot, snapshot.Keys)]
    {
      k, snapshot := steps, docs;
      docs := map[];
      flushes := flushes[k := C.Flush(snapshot, snapshot.Keys)];
      steps := steps + 1;
      C.ExecAppend(events, C.Swap);
      events := events + [C.Swap];
    }

    // One turn of the loop of flush.
    method PublishDoc(k: nat, fileID: string)
      requires Valid() && k in flushes && fileID in flushes[k].rest && fileID in flushes[k].taken
      modifies this
      ensures Valid() && old(events) < events
      ensures flushes == old(flushes)[k := old(flushes)[k].(rest := old(flushes)[k].rest - {fileID})]
    {
      ghost var was := View();
      var d := flushes[k].taken[fileID];
      var writeActors := ToActorIDs(d.writers);
      var readonlyActors := ToActorIDs(d.readers);
      var accepted: bool := *;
      if d.writers != {} || d.readers != {} {
        var topic := C.ContributionTopic;
        if !d.modified {
          topic := C.ViewTopic;
        }
        var message := C.Message(topic, fileID, writeActors, readonlyActors);
        attempts := attempts + [C.Attempt(k, message, accepted)];
        if accepted {
          emitted := emitted + 1;
        } else {
          publishFail := publishFail + 1;
        }
      }
      flushes := flushes[k := flushes[k].(rest := flushes[k].rest - {fileID})];
      steps := steps + 1;
      ghost var e := C.Publish(k, fileID, writeActors, readonlyActors, accepted);
      PublishIs(was, View(), k, fileID, writeActors, readonlyActors, accepted);
      C.ExecAppend(events, e);
      events := events + [e];
    }

    /** Everyone but the flush `mine`: requests, saves, and other flushes. */
    method Others(mine: nat)
      requires Valid() && mine in flushes
      modifies this
      ensures Valid() && old(events) <= events
      ensures mine in flushes && flushes[mine] == old(flushes[mine])
    {
      var schedule: seq<C.Event> := *;
      for i := 0 to |schedule|
        invariant Valid() && old(events) <= events
        invariant mine in flushes && flushes[mine] == old(flushes[mine])
      {
        match schedule[i] {
          case AddActor(file, actor, isWrite) => AddActor(file, actor, isWrite);
          case MarkModified(file) => MarkModified(file);
          case Swap =>
            C.AlwaysAccounted(events);
            var k, snapshot := TakeWindow();
          case Publish(k, file, _, _, _) =>
            if k != mine && k in flushes && file in flushes[k].rest && file in flushes[k].taken {
              PublishDoc(k, file);
            }
        }
      }
    }

    /** flush: takes the window, then publishes its documents in any order, while others
        fill the next one. What it leaves is described by Contribution.FlushReportsItsWindow. */
    method Flush() returns (k: nat)
      requires Valid()
      modifies this
      ensures Valid() && old(events) <= events && k == old(|events|) && k < |events| && events[k] == C.Swap
      ensures k in flushes && flushes[k].rest == {} && flushes[k].taken == old(docs)
    {
      var snapshot;
      k, snapshot := TakeWindow();
      var rest := snapshot.Keys;
      while rest != {}
        invariant Valid() && old(events) <= events && k < |events| && events[k] == C.Swap
        invariant k in flushes && flushes[k].taken == snapshot && flushes[k].rest == rest && rest <= snapshot.Keys
        decreases |rest|
      {
        Others(k);
        var fileID :| fileID in rest;
        PublishDoc(k, fileID);
        rest := rest - {fileID};
      }
    }
  }
}
