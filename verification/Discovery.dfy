/** The discovery cache and the reachability of Collabora. */
module Discovery {
  import opened Wrappers

  datatype Action = Action(name: string, ext: string, urlSrc: string)

  datatype Data = Data(actions: seq<Action>, proofKey: string)

  datatype Reach = Unknown | Reachable | Unreachable

  datatype Record = Regained | Lost

  const CACHE_TTL: int := 12 * 60 * 60 * 1_000_000_000

  // `cachedAt` is None for the zero time, which is older than any TTL. `fetched` is all
  // the data Collabora has ever answered with, in order; `probes` the outcomes of all
  // probes, in order. Both are history.
  datatype State = State(now: int, cached: Option<Data>, cachedAt: Option<int>,
                         reach: Reach, lastSuccess: Option<int>, log: seq<Record>,
                         fetched: seq<Data>, probes: seq<bool>)

  // The atomic steps of any number of goroutines.
  datatype Event =
    | Tick(delta: int)
    | Answer(data: Data)   // FetchDiscovery succeeds for somebody
    | Store(data: Data)    // somebody puts what was fetched into the cache
    | Invalidate
    | Probed(up: bool)

  function Init(): State {
    State(0, None, None, Unknown, None, [], [], [])
  }

  function Step(s: State, e: Event): State {
    match e
    case Tick(delta) => if delta > 0 then s.(now := s.now + delta) else s
    case Answer(data) => s.(fetched := s.fetched + [data])
    case Store(data) => if data in s.fetched then s.(cached := Some(data), cachedAt := Some(s.now)) else s
    case Invalidate => s.(cachedAt := None)
    case Probed(up) =>
      s.(probes := s.probes + [up],
         reach := if up then Reachable else Unreachable,
         lastSuccess := if up then Some(s.now) else s.lastSuccess,
         log := if up && s.reach == Unreachable then s.log + [Regained]
                else if !up && s.reach == Reachable then s.log + [Lost]
                else s.log)
  }

  function Run(s: State, evs: seq<Event>): State {
    if evs == [] then s else Step(Run(s, evs[..|evs| - 1]), evs[|evs| - 1])
  }

  lemma RunAppend(s: State, evs: seq<Event>, e: Event)
    ensures Run(s, evs + [e]) == Step(Run(s, evs), e)
  {
    assert (evs + [e])[..|evs|] == evs;
  }

  // One record per pair of adjacent probes that differ.
  function Transitions(probes: seq<bool>): seq<Record> {
    if |probes| < 2 then []
    else
      var n := |probes| - 1;
      Transitions(probes[..n])
      + (if probes[n - 1] == probes[n] then [] else [if probes[n] then Regained else Lost])
  }

  ghost predicate Sound(s: State) {
    && (s.cached.Some? ==> s.cached.value in s.fetched)
    && s.log == Transitions(s.probes)
    && s.reach == (if s.probes == [] then Unknown else if s.probes[|s.probes| - 1] then Reachable else Unreachable)
  }

  lemma ProbeLogs(s: State, up: bool)
    requires Sound(s)
    ensures Sound(Step(s, Probed(up)))
  {
    assert (s.probes + [up])[..|s.probes|] == s.probes;
  }

  lemma StepKeeps(s: State, e: Event)
    ensures s.fetched <= Step(s, e).fetched
    ensures s.cached.Some? ==> Step(s, e).cached.Some?
  {
  }

  lemma StepSound(s: State, e: Event)
    requires Sound(s)
    ensures Sound(Step(s, e))
  {
    hide Transitions;
    if e.Probed? {
      ProbeLogs(s, e.up);
    }
  }

  lemma {:induction false} RunSound(s: State, evs: seq<Event>)
    requires Sound(s)
    ensures Sound(Run(s, evs))
  {
    hide Step, Sound;
    if evs != [] {
      RunSound(s, evs[..|evs| - 1]);
      StepSound(Run(s, evs[..|evs| - 1]), evs[|evs| - 1]);
    }
  }

  /** Once the cache has been filled it is never empty again, and it only ever holds data
      that Collabora answered with. */
  lemma {:induction false} CacheLasts(s: State, evs: seq<Event>)
    requires Sound(s)
    ensures s.cached.Some? ==> Run(s, evs).cached.Some?
    ensures Run(s, evs).cached.Some? ==> Run(s, evs).cached.value in Run(s, evs).fetched
    ensures s.fetched <= Run(s, evs).fetched
  {
    if evs != [] {
      CacheLasts(s, evs[..|evs| - 1]);
    }
  }

  // The run has stored this data at event k, and not invalidated it since.
  ghost predicate StoredAt(evs: seq<Event>, k: nat, data: Data) {
    && k < |evs| && evs[k] == Store(data) && data in Run(Init(), evs[..k]).fetched
    && (forall m :: k < m < |evs| ==> !evs[m].Invalidate?)
  }

  // It has stored it less than twelve hours ago, and not invalidated it since.
  ghost predicate StoredLately(evs: seq<Event>, data: Data) {
    exists k: nat :: StoredAt(evs, k, data)
                     && Run(Init(), evs).now - Run(Init(), evs[..k]).now < 43_200_000_000_000
  }

  /** What the date of the cached data means: it was stored at that time, and has not been
      invalidated since. */
  lemma {:induction false} CachedSince(evs: seq<Event>)
    ensures var s := Run(Init(), evs);
            s.cachedAt.Some? ==>
              s.cached.Some? && exists k: nat :: StoredAt(evs, k, s.cached.value)
                                                 && Run(Init(), evs[..k]).now == s.cachedAt.value
  {
    if evs != [] {
      var past, e := evs[..|evs| - 1], evs[|evs| - 1];
      CachedSince(past);
      var s, t := Run(Init(), past), Run(Init(), evs);
      if t.cachedAt.Some? {
        if e.Store? && e.data in s.fetched {
          assert StoredAt(evs, |past|, e.data);
        } else {
          var k: nat :| StoredAt(past, k, s.cached.value) && Run(Init(), past[..k]).now == s.cachedAt.value;
          assert past[..k] == evs[..k];
          assert StoredAt(evs, k, s.cached.value);
        }
      }
    }
  }

  lemma {:induction false} TransitionsAlternate(probes: seq<bool>)
    ensures var log := Transitions(probes);
            && (forall i :: 0 < i < |log| ==> log[i] != log[i - 1])
            && (log != [] ==> probes != [] && log[|log| - 1] == if probes[|probes| - 1] then Regained else Lost)
  {
    if |probes| >= 2 {
      TransitionsAlternate(probes[..|probes| - 1]);
    }
  }

  /** Over any run of probes, the log has one record for each probe that differs from the
      one before, and lost and regained alternate; probing does not touch the cache. */
  lemma ProbeLogAlternates(evs: seq<Event>)
    ensures var s := Run(Init(), evs);
            && s.log == Transitions(s.probes)
            && (forall i :: 0 < i < |s.log| ==> s.log[i] != s.log[i - 1])
    ensures forall up :: Step(Run(Init(), evs), Probed(up)).cached == Run(Init(), evs).cached
                      && Step(Run(Init(), evs), Probed(up)).cachedAt == Run(Init(), evs).cachedAt
  {
    RunSound(Init(), evs);
    TransitionsAlternate(Run(Init(), evs).probes);
  }

  function Preferred(preferEdit: bool): string {
    if preferEdit then "edit" else "view"
  }

  function Other(preferEdit: bool): string {
    if preferEdit then "view" else "edit"
  }

  predicate NoneNamed(actions: seq<Action>, lo: nat, hi: nat, ext: string, name: string)
    requires hi <= |actions|
  {
    forall i :: lo <= i < hi && actions[i].ext == ext ==> actions[i].name != name
  }

  // k is the last of the first n actions with this extension and name, if there is one.
  predicate LastNamed(actions: seq<Action>, n: nat, ext: string, name: string, k: Option<nat>)
    requires n <= |actions|
  {
    match k
    case None => NoneNamed(actions, 0, n, ext, name)
    case Some(k) =>
      && k < n && actions[k].ext == ext && actions[k].name == name
      && NoneNamed(actions, k + 1, n, ext, name)
  }

  // Among the actions of the extension: the first of the preferred name, else the last of
  // the other one, else the last view_comment.
  predicate IsChoice(actions: seq<Action>, ext: string, preferEdit: bool, choice: Option<nat>) {
    var n, preferred, other := |actions|, Preferred(preferEdit), Other(preferEdit);
    match choice
    case None =>
      && NoneNamed(actions, 0, n, ext, preferred)
      && NoneNamed(actions, 0, n, ext, other)
      && NoneNamed(actions, 0, n, ext, "view_comment")
    case Some(k) =>
      && k < n && actions[k].ext == ext
      && (if actions[k].name == preferred then NoneNamed(actions, 0, k, ext, preferred)
          else
            && NoneNamed(actions, 0, n, ext, preferred)
            && (LastNamed(actions, n, ext, other, choice)
                || (NoneNamed(actions, 0, n, ext, other) && LastNamed(actions, n, ext, "view_comment", choice))))
  }

  predicate Named(actions: seq<Action>, k: nat, ext: string, name: string)
    requires k < |actions|
  {
    actions[k].ext == ext && actions[k].name == name
  }

  // k is what is left to choose when neither edit nor view are there for the extension.
  ghost predicate LastComment(actions: seq<Action>, ext: string, k: nat) {
    && k < |actions| && Named(actions, k, ext, "view_comment")
    && (forall i :: 0 <= i < |actions| ==> !Named(actions, i, ext, "edit") && !Named(actions, i, ext, "view"))
    && (forall i :: k < i < |actions| ==> !Named(actions, i, ext, "view_comment"))
  }

  ghost predicate First(actions: seq<Action>, ext: string, name: string, k: nat) {
    k < |actions| && Named(actions, k, ext, name) && forall i :: 0 <= i < k ==> !Named(actions, i, ext, name)
  }

  // k is the last one of this name, and there is none of the better name.
  ghost predicate LastWithout(actions: seq<Action>, ext: string, better: string, name: string, k: nat) {
    && k < |actions| && Named(actions, k, ext, name)
    && (forall i :: k < i < |actions| ==> !Named(actions, i, ext, name))
    && (forall i :: 0 <= i < |actions| ==> !Named(actions, i, ext, better))
  }

  /** Who may write gets the first edit action, else the last view action; who may only read,
      the first view action, else the last edit action; and both the last view_comment
      action if there is neither. */
  lemma ChoiceByName(actions: seq<Action>, ext: string, k: nat)
    ensures IsChoice(actions, ext, true, Some(k)) <==>
              || First(actions, ext, "edit", k)
              || LastWithout(actions, ext, "edit", "view", k)
              || LastComment(actions, ext, k)
    ensures IsChoice(actions, ext, false, Some(k)) <==>
              || First(actions, ext, "view", k)
              || LastWithout(actions, ext, "view", "edit", k)
              || LastComment(actions, ext, k)
  {
    ChoiceIsNamed(actions, ext, true, k);
    ChoiceIsNamed(actions, ext, false, k);
  }

  lemma ChoiceIsNamed(actions: seq<Action>, ext: string, preferEdit: bool, k: nat)
    ensures var preferred, other := Preferred(preferEdit), Other(preferEdit);
            IsChoice(actions, ext, preferEdit, Some(k)) <==>
              || First(actions, ext, preferred, k)
              || LastWithout(actions, ext, preferred, other, k)
              || LastComment(actions, ext, k)
  {
    var n, preferred, other := |actions|, Preferred(preferEdit), Other(preferEdit);
    if k < n {
      hide NoneNamed;
      NoneIs(actions, 0, k, ext, preferred);
      NoneIs(actions, 0, n, ext, preferred);
      NoneIs(actions, 0, n, ext, other);
      NoneIs(actions, k + 1, n, ext, other);
      NoneIs(actions, k + 1, n, ext, "view_comment");
      assert Named(actions, k, ext, actions[k].name) <==> actions[k].ext == ext;
    }
  }

  lemma NoneIs(actions: seq<Action>, lo: nat, hi: nat, ext: string, name: string)
    requires hi <= |actions|
    ensures NoneNamed(actions, lo, hi, ext, name) <==> forall i :: lo <= i < hi ==> !Named(actions, i, ext, name)
  {
    if NoneNamed(actions, lo, hi, ext, name) {
      forall i | lo <= i < hi ensures !Named(actions, i, ext, name) {
        assert actions[i].ext == ext ==> actions[i].name != name;
      }
    }
    if forall i :: lo <= i < hi ==> !Named(actions, i, ext, name) {
      forall i | lo <= i < hi && actions[i].ext == ext ensures actions[i].name != name {
        assert !Named(actions, i, ext, name);
      }
    }
  }

  /** Every list of actions leaves exactly one choice. */
  lemma ChoiceIsUnique(actions: seq<Action>, ext: string, preferEdit: bool, a: Option<nat>, b: Option<nat>)
    requires IsChoice(actions, ext, preferEdit, a) && IsChoice(actions, ext, preferEdit, b)
    ensures a == b
  {
    if a.Some? && b.Some? {
      assert a.value <= b.value by { NotLater(actions, ext, preferEdit, a.value, b.value); }
      NotLater(actions, ext, preferEdit, b.value, a.value);
    }
  }

  lemma NotLater(actions: seq<Action>, ext: string, preferEdit: bool, a: nat, b: nat)
    requires IsChoice(actions, ext, preferEdit, Some(a)) && IsChoice(actions, ext, preferEdit, Some(b))
    ensures a <= b
  {
    assert actions[a].name == actions[b].name;
  }

  /** The loop of FindActionByExtension. */
  method FindAction(actions: seq<Action>, ext: string, preferEdit: bool) returns (choice: Option<nat>)
    ensures IsChoice(actions, ext, preferEdit, choice)
  {
    var preferred, fallback := Preferred(preferEdit), Other(preferEdit);
    var fallbackAction: Option<nat> := None;
    var viewCommentAction: Option<nat> := None;
    for i := 0 to |actions|
      invariant NoneNamed(actions, 0, i, ext, preferred)
      invariant LastNamed(actions, i, ext, fallback, fallbackAction)
      invariant LastNamed(actions, i, ext, "view_comment", viewCommentAction)
    {
      var a := actions[i];
      if a.ext != ext {
        continue;
      }
      if a.name == preferred {
        return Some(i);
      }
      if a.name == fallback {
        fallbackAction := Some(i);
      }
      if a.name == "view_comment" {
        viewCommentAction := Some(i);
      }
    }
    if fallbackAction != None {
      return fallbackAction;
    }
    return viewCommentAction;
  }
}
