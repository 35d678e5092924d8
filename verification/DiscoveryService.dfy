/** DiscoveryService as it is written, each of its critical sections one step of the
    state machine of Discovery, with other goroutines in between. */
module DiscoveryServiceModel {
  import opened Wrappers
  import D = Discovery

  datatype Lookup = Found(action: D.Action) | NoDiscoveryData | UnsupportedExtension

  class DiscoveryService {
    var now: int
    var cached: Option<D.Data>
    var cachedAt: Option<int>
    var reachState: D.Reach
    var lastSuccess: Option<int>
    var log: seq<D.Record>
    var fetched: seq<D.Data>
    var probes: seq<bool>
    ghost var events: seq<D.Event>

    ghost function View(): D.State
      reads this
    {
      D.State(now, cached, cachedAt, reachState, lastSuccess, log, fetched, probes)
    }

    ghost predicate Valid()
      reads this
    {
      View() == D.Run(D.Init(), events) && D.Sound(View())
    }

    // Some instant of the run, no earlier than its i-th, at which the cache was empty.
    ghost predicate WasEmptySince(i: nat)
      reads this
    {
      exists k :: i <= k <= |events| && D.Run(D.Init(), events[..k]).cached == None
    }

    constructor ()
      ensures Valid() && events == []
    {
      now, cached, cachedAt := 0, None, None;
      reachState, lastSuccess, log, fetched, probes := D.Unknown, None, [], [], [];
      events := [];
    }

    method Note(ghost was: D.State, ghost e: D.Event)
      requires was == D.Run(D.Init(), events) && D.Sound(was) && View() == D.Step(was, e)
      modifies this`events
      ensures Valid() && events == old(events) + [e]
    {
      hide D.Step, D.Run, D.Sound;
      D.RunAppend(D.Init(), events, e);
      D.StepSound(was, e);
      events := events + [e];
    }

    // Everyone else: time, other fetches, stores, invalidations and probes.
    method Others()
      requires Valid()
      modifies this
      ensures Valid() && old(events) <= events && old(fetched) <= fetched
      ensures old(cached).Some? ==> cached.Some?
    {
      var schedule: seq<D.Event> := *;
      for i := 0 to |schedule|
        invariant Valid() && old(events) <= events && old(fetched) <= fetched
        invariant old(cached).Some? ==> cached.Some?
      {
        Enter(schedule[i]);
      }
    }

    method Enter(e: D.Event)
      requires Valid()
      modifies this
      ensures Valid() && events == old(events) + [e]
      ensures old(fetched) <= fetched && (old(cached).Some? ==> cached.Some?)
    {
      var was := D.State(now, cached, cachedAt, reachState, lastSuccess, log, fetched, probes);
      var next := D.Step(was, e);
      D.StepKeeps(was, e);
      now, cached, cachedAt, reachState := next.now, next.cached, next.cachedAt, next.reach;
      lastSuccess, log, fetched, probes := next.lastSuccess, next.log, next.fetched, next.probes;
      Note(was, e);
    }

    // The cached data has been there for less than twelve hours, and was not invalidated.
    predicate IsYoung()
      reads this
    {
      cached.Some? && cachedAt.Some? && now - cachedAt.value < 43_200_000_000_000
    }

    /** GetDiscovery, `reply` being what Collabora would reply if asked, if anything: never
        fails once the cache has been filled, never returns data that Collabora has not
        replied with, and does not ask for data younger than the TTL. */
    method GetDiscovery(reply: Option<D.Data>) returns (data: Option<D.Data>)
      requires Valid()
      modifies this
      ensures Valid() && old(events) <= events
      ensures old(cached).Some? ==> data.Some?
      ensures data.Some? ==> data.value in fetched && cached.Some?
      ensures data == None ==> WasEmptySince(|old(events)|)
      ensures old(IsYoung()) ==> data == old(cached) && events == old(events)
      ensures !old(IsYoung()) && reply.Some? ==> data == reply == cached && cachedAt == Some(now)
      ensures !old(IsYoung()) && reply == None ==> data == cached
      ensures reply.Some? && data != reply ==> data.Some? && D.StoredLately(old(events), data.value)
    {
      D.CachedSince(events);
      if cached.Some? && cachedAt.Some? && now - cachedAt.value < D.CACHE_TTL {
        return cached;
      }
      data := Refresh(reply);
    }

    /** InvalidateAndRefresh: the same, but it always asks. */
    method InvalidateAndRefresh(reply: Option<D.Data>) returns (data: Option<D.Data>)
      requires Valid()
      modifies this
      ensures Valid() && old(events) + [D.Invalidate] <= events
      ensures old(cached).Some? ==> data.Some?
      ensures data.Some? ==> data.value in fetched && cached.Some?
      ensures data == None ==> WasEmptySince(|old(events)|)
      ensures if reply.Some? then data == reply == cached && cachedAt == Some(now) else data == cached
    {
      ghost var was := View();
      cachedAt := None;
      Note(was, D.Invalidate);
      Others();
      data := Refresh(reply);
    }

    method Refresh(reply: Option<D.Data>) returns (data: Option<D.Data>)
      requires Valid()
      modifies this
      ensures Valid() && old(events) <= events
      ensures old(cached).Some? ==> data.Some?
      ensures data.Some? ==> data.value in fetched && cached.Some?
      ensures data == None ==> WasEmptySince(|old(events)|)
      ensures if reply.Some? then data == reply == cached && cachedAt == Some(now) else data == cached
    {
      Others();
      if reply == None {
        Others();
        assert events[..|events|] == events;
        return cached;
      }
      ghost var was := View();
      fetched := fetched + [reply.value];
      Note(was, D.Answer(reply.value));
      assert reply.value in fetched;
      Others();
      was := View();
      cached, cachedAt := reply, Some(now);
      Note(was, D.Store(reply.value));
      return reply;
    }

    /** Probe, Collabora answering its fetch or not: the outcome becomes one step of the run,
        taken at one instant under the mutex; RecordProbe says what that step does. */
    method Probe(answers: bool) returns (reachable: bool, success: Option<int>)
      requires Valid()
      modifies this
      ensures Valid() && old(events) < events && events[|events| - 1] == D.Probed(reachable)
      ensures reachable == answers
      ensures success == lastSuccess && (reachable ==> success == Some(now))
    {
      reachable := answers;
      Others();
      success := RecordProbe(reachable);
    }

    // Logs exactly when the outcome differs from the probe before, and leaves the cache alone.
    method RecordProbe(reachable: bool) returns (success: Option<int>)
      requires Valid()
      modifies this
      ensures Valid() && events == old(events) + [D.Probed(reachable)]
      ensures probes == old(probes) + [reachable] && now == old(now)
      ensures cached == old(cached) && cachedAt == old(cachedAt) && fetched == old(fetched)
      ensures success == lastSuccess == if reachable then Some(now) else old(lastSuccess)
      ensures log == if old(probes) != [] && old(probes)[|old(probes)| - 1] != reachable
                     then old(log) + [if reachable then D.Regained else D.Lost] else old(log)
    {
      ghost var was := View();
      var prev := reachState;
      probes := probes + [reachable];
      if reachable {
        lastSuccess := Some(now);
        reachState := D.Reachable;
        if prev == D.Unreachable {
          log := log + [D.Regained];
        }
      } else {
        reachState := D.Unreachable;
        if prev == D.Reachable {
          log := log + [D.Lost];
        }
      }
      success := lastSuccess;
      Note(was, D.Probed(reachable));
    }

    method FindActionByExtension(ext: string, preferEdit: bool) returns (res: Lookup)
      ensures res == NoDiscoveryData <==> cached == None
      ensures res == UnsupportedExtension ==> D.IsChoice(cached.value.actions, ext, preferEdit, None)
      ensures res.Found? ==>
                exists k :: 0 <= k < |cached.value.actions| && res.action == cached.value.actions[k]
                            && D.IsChoice(cached.value.actions, ext, preferEdit, Some(k))
    {
      if cached == None {
        return NoDiscoveryData;
      }
      var k := D.FindAction(cached.value.actions, ext, preferEdit);
      if k == None {
        return UnsupportedExtension;
      }
      return Found(cached.value.actions[k.value]);
    }
  }
}
