/** Every interleaving of the contribution window: actors and modifications recorded,
    windows swapped out, and swapped windows published one document at a time outside
    the mutex, while the next window is already filling. */
module Contribution {
  import opened SortedNames

  datatype Topic = ContributionTopic | ViewTopic

  datatype Doc = Doc(modified: bool, writers: set<string>, readers: set<string>)

  type Window = map<string, Doc>

  datatype Message = Message(topic: Topic, file: string, writers: seq<string>, readers: seq<string>)

  // One call of the publisher on behalf of a flush.
  datatype Attempt = Attempt(flush: nat, message: Message, accepted: bool)

  // A flush in progress: the window it has taken, and the documents not yet dealt with.
  datatype Flush = Flush(taken: Window, rest: set<string>)

  datatype State = State(docs: Window, flushes: map<nat, Flush>, attempts: seq<Attempt>,
                         emitted: nat, publishFail: nat, steps: nat)

  // A flush is named by the instant of its swap. `writers` and `readers` are the lists
  // that the flush makes of the document's sets.
  datatype Event =
    | AddActor(file: string, actor: string, isWrite: bool)
    | MarkModified(file: string)
    | Swap
    | Publish(flush: nat, file: string, writers: seq<string>, readers: seq<string>, accepted: bool)

  const NEW_DOC := Doc(false, {}, {})

  function Entry(w: Window, file: string): Doc {
    if file in w then w[file] else NEW_DOC
  }

  // The mutex-protected updates of the current window.
  function Note(w: Window, e: Event): Window {
    match e
    case AddActor(file, actor, isWrite) =>
      if file == "" || actor == "" then w
      else if isWrite then w[file := Entry(w, file).(writers := Entry(w, file).writers + {actor})]
      else w[file := Entry(w, file).(readers := Entry(w, file).readers + {actor})]
    case MarkModified(file) => if file == "" then w else w[file := Entry(w, file).(modified := true)]
    case _ => w
  }

  predicate HasActors(doc: Doc) {
    doc.writers != {} || doc.readers != {}
  }

  function TopicOf(doc: Doc): Topic {
    if doc.modified then ContributionTopic else ViewTopic
  }

  ghost function Step(s: State, e: Event): State {
    var t := s.(docs := Note(s.docs, e), steps := s.steps + 1);
    match e
    case Swap => t.(docs := map[], flushes := s.flushes[s.steps := Flush(s.docs, s.docs.Keys)])
    case Publish(k, file, writers, readers, accepted) =>
      if k in s.flushes && file in s.flushes[k].rest && file in s.flushes[k].taken then
        var doc := s.flushes[k].taken[file];
        var u := t.(flushes := s.flushes[k := s.flushes[k].(rest := s.flushes[k].rest - {file})]);
        if !HasActors(doc) then u
        else if !Lists(writers, doc.writers) || !Lists(readers, doc.readers) then t
        else u.(attempts := s.attempts + [Attempt(k, Message(TopicOf(doc), file, writers, readers), accepted)],
                emitted := if accepted then s.emitted + 1 else s.emitted,
                publishFail := if accepted then s.publishFail else s.publishFail + 1)
      else t
    case _ => t
  }

  function Init(): State {
    State(map[], map[], [], 0, 0, 0)
  }

  ghost function Exec(evs: seq<Event>): (s: State)
    ensures s.steps == |evs|
  {
    if evs == [] then Init() else Step(Exec(evs[..|evs| - 1]), evs[|evs| - 1])
  }

  lemma ExecAppend(evs: seq<Event>, e: Event)
    ensures Exec(evs + [e]) == Step(Exec(evs), e)
  {
    assert (evs + [e])[..|evs|] == evs;
  }

  lemma ExecNext(evs: seq<Event>, n: nat)
    requires n < |evs|
    ensures Exec(evs[..n + 1]) == Step(Exec(evs[..n]), evs[n])
  {
    assert evs[..n + 1] == evs[..n] + [evs[n]];
    ExecAppend(evs[..n], evs[n]);
  }

  // Where the window that is current after the first n events began.
  function WindowStart(evs: seq<Event>, n: nat): (start: nat)
    requires n <= |evs|
    ensures start <= n
    ensures forall k :: start <= k < n ==> evs[k] != Swap
    ensures start > 0 ==> evs[start - 1] == Swap
  {
    if n == 0 then 0 else if evs[n - 1] == Swap then n else WindowStart(evs, n - 1)
  }

  // What the events from a to b say of one document.
  ghost predicate MarkedIn(evs: seq<Event>, a: nat, b: nat, file: string)
    requires a <= b <= |evs|
  {
    file != "" && exists k :: a <= k < b && evs[k] == MarkModified(file)
  }

  ghost predicate ActiveIn(evs: seq<Event>, a: nat, b: nat, file: string, actor: string, isWrite: bool)
    requires a <= b <= |evs|
  {
    file != "" && actor != "" && exists k :: a <= k < b && evs[k] == AddActor(file, actor, isWrite)
  }

  // A window is exactly the record of the events from a to b.
  ghost predicate Records(w: Window, evs: seq<Event>, a: nat, b: nat)
    requires a <= b <= |evs|
  {
    forall file :: RecordsDoc(Entry(w, file), evs, a, b, file)
  }

  ghost predicate RecordsDoc(doc: Doc, evs: seq<Event>, a: nat, b: nat, file: string)
    requires a <= b <= |evs|
  {
    && (doc.modified <==> MarkedIn(evs, a, b, file))
    && (forall actor :: actor in doc.writers <==> ActiveIn(evs, a, b, file, actor, true))
    && (forall actor :: actor in doc.readers <==> ActiveIn(evs, a, b, file, actor, false))
  }

  lemma NoteRecords(w: Window, evs: seq<Event>, a: nat, b: nat, file: string)
    requires a <= b < |evs| && RecordsDoc(Entry(w, file), evs, a, b, file)
    ensures RecordsDoc(Entry(Note(w, evs[b]), file), evs, a, b + 1, file)
  {
    var doc, next := Entry(w, file), Entry(Note(w, evs[b]), file);
    assert MarkedIn(evs, a, b + 1, file) <==> MarkedIn(evs, a, b, file) || (file != "" && evs[b] == MarkModified(file));
    forall actor, isWrite
      ensures ActiveIn(evs, a, b + 1, file, actor, isWrite)
         <==> ActiveIn(evs, a, b, file, actor, isWrite)
              || (file != "" && actor != "" && evs[b] == AddActor(file, actor, isWrite))
    {
    }
  }

  // The current window is the record of what has happened since the last swap.
  lemma {:induction false} CurrentWindow(evs: seq<Event>, n: nat)
    requires n <= |evs|
    ensures Records(Exec(evs[..n]).docs, evs, WindowStart(evs, n), n)
  {
    if n == 0 {
    } else {
      CurrentWindow(evs, n - 1);
      ExecNext(evs, n - 1);
      var w := Exec(evs[..n - 1]).docs;
      if evs[n - 1] != Swap {
        DocsNoted(Exec(evs[..n - 1]), evs[n - 1]);
        forall file ensures RecordsDoc(Entry(Exec(evs[..n]).docs, file), evs, WindowStart(evs, n), n, file) {
          NoteRecords(w, evs, WindowStart(evs, n), n - 1, file);
        }
      }
    }
  }

  lemma DocsNoted(s: State, e: Event)
    requires e != Swap
    ensures Step(s, e).docs == Note(s.docs, e)
  {
  }

  // The window taken by the flush that swapped at instant k stays what it was.
  lemma {:induction false} TakenStays(evs: seq<Event>, k: nat, n: nat)
    requires k < n <= |evs| && evs[k] == Swap
    ensures k in Exec(evs[..n]).flushes && Exec(evs[..n]).flushes[k].taken == Exec(evs[..k]).docs
  {
    ExecNext(evs, n - 1);
    if n - 1 > k {
      TakenStays(evs, k, n - 1);
      StepKeepsTaken(Exec(evs[..n - 1]), evs[n - 1], k);
    }
  }

  lemma StepKeepsTaken(s: State, e: Event, k: nat)
    requires k in s.flushes && k < s.steps
    ensures k in Step(s, e).flushes && Step(s, e).flushes[k].taken == s.flushes[k].taken
  {
  }

  // The attempts that flush k has made for a document.
  function AttemptsFor(attempts: seq<Attempt>, k: nat, file: string): seq<Attempt> {
    if attempts == [] then []
    else
      var last := attempts[|attempts| - 1];
      AttemptsFor(attempts[..|attempts| - 1], k, file)
      + (if last.flush == k && last.message.file == file then [last] else [])
  }

  lemma AttemptsAppend(attempts: seq<Attempt>, a: Attempt, k: nat, file: string)
    ensures AttemptsFor(attempts + [a], k, file)
         == AttemptsFor(attempts, k, file) + (if a.flush == k && a.message.file == file then [a] else [])
  {
    assert (attempts + [a])[..|attempts|] == attempts;
  }

  // A flush has dealt with a document when it has reported it once, if it has actors.
  ghost predicate Reported(s: State, k: nat, file: string)
    requires k in s.flushes
  {
    var f, made := s.flushes[k], AttemptsFor(s.attempts, k, file);
    if file in f.taken && file !in f.rest && HasActors(f.taken[file]) then
      && |made| == 1
      && made[0].message.topic == TopicOf(f.taken[file])
      && Lists(made[0].message.writers, f.taken[file].writers)
      && Lists(made[0].message.readers, f.taken[file].readers)
    else made == []
  }

  ghost predicate Accounted(s: State) {
    && s.emitted + s.publishFail == |s.attempts|
    && (forall k :: k in s.flushes ==> k < s.steps && s.flushes[k].rest <= s.flushes[k].taken.Keys)
    && (forall a :: a in s.attempts ==> a.flush in s.flushes)
    && (forall k, file :: k in s.flushes ==> Reported(s, k, file))
  }

  lemma NoAttempts(attempts: seq<Attempt>, k: nat, file: string)
    requires forall a :: a in attempts ==> a.flush != k
    ensures AttemptsFor(attempts, k, file) == []
  {
  }

  lemma PublishReports(s: State, e: Event, k: nat, file: string)
    requires Accounted(s) && e.Publish? && k in s.flushes
    ensures k in Step(s, e).flushes && Reported(Step(s, e), k, file)
  {
    var t := Step(s, e);
    assert Reported(s, k, file);
    if t.attempts != s.attempts {
      var a := t.attempts[|s.attempts|];
      assert t.attempts == s.attempts + [a];
      AttemptsAppend(s.attempts, a, k, file);
    }
  }

  lemma StepAccounts(s: State, e: Event)
    requires Accounted(s)
    ensures Accounted(Step(s, e))
  {
    var t := Step(s, e);
    forall k, file | k in t.flushes ensures Reported(t, k, file) {
      if e.Publish? {
        PublishReports(s, e, k, file);
      } else if k in s.flushes {
        assert Reported(s, k, file);
      } else {
        NoAttempts(s.attempts, k, file);
      }
    }
  }

  lemma {:induction false} AlwaysAccounted(evs: seq<Event>)
    ensures Accounted(Exec(evs))
  {
    if evs != [] {
      AlwaysAccounted(evs[..|evs| - 1]);
      StepAccounts(Exec(evs[..|evs| - 1]), evs[|evs| - 1]);
    }
  }

  /** A flush that is done has called the publisher exactly once for every document with
      an accepted actor since the previous swap, and for no other; on the contribution
      topic exactly if the document was marked since that swap; and with the sorted,
      duplicate-free lists of the actors recorded since it. */
  lemma FlushReportsItsWindow(evs: seq<Event>, k: nat, file: string)
    requires k < |evs| && evs[k] == Swap
    ensures var s, start := Exec(evs), WindowStart(evs, k);
            && k in s.flushes
            && (s.flushes[k].rest == {} ==>
                  var made := AttemptsFor(s.attempts, k, file);
                  if exists actor, isWrite :: ActiveIn(evs, start, k, file, actor, isWrite) then
                    && |made| == 1
                    && (made[0].message.topic == ContributionTopic <==> MarkedIn(evs, start, k, file))
                    && Alphabetical(made[0].message.writers) && Alphabetical(made[0].message.readers)
                    && (forall actor ::
                          actor in made[0].message.writers <==> ActiveIn(evs, start, k, file, actor, true))
                    && (forall actor ::
                          actor in made[0].message.readers <==> ActiveIn(evs, start, k, file, actor, false))
                  else made == [])
  {
    hide Alphabetical, StrictlySorted;
    assert evs[..|evs|] == evs;
    TakenStays(evs, k, |evs|);
    CurrentWindow(evs, k);
    AlwaysAccounted(evs);
    var s, start := Exec(evs), WindowStart(evs, k);
    var doc := Entry(s.flushes[k].taken, file);
    assert RecordsDoc(doc, evs, start, k, file);
    assert Reported(s, k, file);
    if HasActors(doc) {
      var made := AttemptsFor(s.attempts, k, file);
      if doc.writers != {} {
        var actor :| actor in doc.writers;
        assert ActiveIn(evs, start, k, file, actor, true);
      } else {
        var actor :| actor in doc.readers;
        assert ActiveIn(evs, start, k, file, actor, false);
      }
      if s.flushes[k].rest == {} {
        ListsMeans(made[0].message.writers, doc.writers);
        ListsMeans(made[0].message.readers, doc.readers);
      }
    }
  }

  // The window of the swap at instant k takes in the event at instant i.
  predicate Covers(evs: seq<Event>, k: nat, i: nat)
    requires k < |evs|
  {
    evs[k] == Swap && WindowStart(evs, k) <= i < k
  }

  /** Every event lands in exactly one flush, that of the first swap after it, and in
      none as long as there is no later swap. */
  lemma {:induction false} EveryEventLandsOnce(evs: seq<Event>, i: nat)
    requires i < |evs| && evs[i] != Swap
    ensures forall k :: k < |evs| && 0 <= k ==>
              (Covers(evs, k, i) <==> i < k && evs[k] == Swap && (forall j :: i < j < k ==> evs[j] != Swap))
    ensures forall k, l :: 0 <= k < |evs| && 0 <= l < |evs| && Covers(evs, k, i) && Covers(evs, l, i) ==> k == l
    ensures (exists k :: 0 <= k < |evs| && Covers(evs, k, i)) <==> (exists k :: i < k < |evs| && evs[k] == Swap)
  {
    forall k | 0 <= k < |evs|
      ensures Covers(evs, k, i) <==> i < k && evs[k] == Swap && (forall j :: i < j < k ==> evs[j] != Swap)
    {
      if i < k && evs[k] == Swap && (forall j :: i < j < k ==> evs[j] != Swap) {
        assert WindowStart(evs, k) <= i;
      }
    }
    if k :| i < k < |evs| && evs[k] == Swap {
      var first := FirstSwap(evs, i, k);
      assert Covers(evs, first, i);
    }
  }

  ghost function FirstSwap(evs: seq<Event>, i: nat, k: nat): (first: nat)
    requires i < k < |evs| && evs[k] == Swap
    ensures i < first <= k && evs[first] == Swap
    ensures forall j :: i < j < first ==> evs[j] != Swap
    decreases k - i
  {
    if evs[i + 1] == Swap then i + 1 else FirstSwap(evs, i + 1, k)
  }

  /** What the publisher has accepted and what it has refused add up to what it was asked. */
  lemma {:induction false} CountersAddUp(evs: seq<Event>)
    ensures var s := Exec(evs);
            && s.emitted + s.publishFail == |s.attempts|
            && s.emitted == |AcceptedOf(s.attempts)|
  {
    AlwaysAccounted(evs);
    EmittedIsAccepted(evs);
  }

  function AcceptedOf(attempts: seq<Attempt>): seq<Attempt> {
    if attempts == [] then []
    else AcceptedOf(attempts[..|attempts| - 1])
         + (if attempts[|attempts| - 1].accepted then [attempts[|attempts| - 1]] else [])
  }

  lemma AcceptedAppend(attempts: seq<Attempt>, a: Attempt)
    ensures AcceptedOf(attempts + [a]) == AcceptedOf(attempts) + (if a.accepted then [a] else [])
  {
    assert (attempts + [a])[..|attempts|] == attempts;
  }

  // A step asks the publisher once at most, and counts what it answers.
  lemma StepCounts(s: State, e: Event)
    ensures var t := Step(s, e);
            || (t.attempts == s.attempts && t.emitted == s.emitted)
            || (e.Publish? && t.emitted == s.emitted + (if e.accepted then 1 else 0)
                && exists m :: t.attempts == s.attempts + [Attempt(e.flush, m, e.accepted)])
  {
    hide Note, Lists;
    if e.Publish? && e.flush in s.flushes && e.file in s.flushes[e.flush].taken {
      var doc := s.flushes[e.flush].taken[e.file];
      var a := Attempt(e.flush, Message(TopicOf(doc), e.file, e.writers, e.readers), e.accepted);
      assert Step(s, e).attempts == s.attempts || Step(s, e).attempts == s.attempts + [a];
    }
  }

  lemma {:induction false} EmittedIsAccepted(evs: seq<Event>)
    ensures Exec(evs).emitted == |AcceptedOf(Exec(evs).attempts)|
  {
    hide Step;
    if evs != [] {
      var s, e := Exec(evs[..|evs| - 1]), evs[|evs| - 1];
      EmittedIsAccepted(evs[..|evs| - 1]);
      StepCounts(s, e);
      var t := Exec(evs);
      assert t == Step(s, e);
      if t.attempts != s.attempts {
        var m :| t.attempts == s.attempts + [Attempt(e.flush, m, e.accepted)];
        AcceptedAppend(s.attempts, Attempt(e.flush, m, e.accepted));
      }
    }
  }
}
