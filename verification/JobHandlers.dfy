/**
 The handlers of the job table and the reaper, as they change it. Beside the table
 stands the run that led to it, so that every lemma about runs is about the table.
 */
module JobHandlers {
  import opened Wrappers
  import opened TrainingJobs
  import opened JobLineage

  /** A run and one step more. */
  lemma LongerRun(states: seq<State>, events: seq<Event>, e: Event, s: State)
    requires Run(states, events) && Next(states[|events|], e, s)
    ensures Run(states + [s], events + [e])
  {
    SameSteps(states, events, states + [s], events + [e], |events|);
  }

  lemma {:induction false} SameSteps(states: seq<State>, events: seq<Event>, states': seq<State>, events': seq<Event>, n: nat)
    requires |states| == |events| + 1 && |states'| == |events'| + 1 && n <= |events|
    requires states <= states' && events <= events' && Steps(states, events, n)
    ensures Steps(states', events', n)
  {
    if n > 0 {
      SameSteps(states, events, states', events', n - 1);
    }
  }

  /** What a tick does to each row: a running one that was silent for longer than the timeout is failed, all others stay. */
  ghost predicate Ticked(jobs: Jobs, jobs': Jobs, now: int, timeout: int, copies: map<nat, nat>) {
    && jobs'.Keys == jobs.Keys + copies.Keys
    && forall id :: id in jobs ==>
         jobs'[id] == if jobs[id].status == Running && jobs[id].heartbeatAt.Some? && now - jobs[id].heartbeatAt.value > timeout
                      then jobs[id].(status := Failed, completedAt := Some(now), error := Some("daemon heartbeat timeout"), token := None)
                      else jobs[id]
  }

  lemma TickIsTicked(jobs: Jobs, now: int, timeout: int, copies: map<nat, nat>)
    requires Possible(jobs, Reap(now, timeout, copies))
    ensures Ticked(jobs, After(jobs, Reap(now, timeout, copies)), now, timeout, copies)
  {
    ReapRequeues(jobs, Reap(now, timeout, copies));
  }

  /** The table behind the HTTP handlers and the reaper loop. */
  class JobTable {
    var jobs: Jobs

    /** The accepted requests and ticks since the table was empty, and the states they led through. */
    ghost var states: seq<State>
    ghost var events: seq<Event>

    /** The table is where its run ends. */
    ghost predicate Valid()
      reads this
    {
      Run(states, events) && states[|events|].jobs == jobs
    }

    constructor ()
      ensures Valid() && jobs == map[] && events == []
    {
      jobs, states, events := map[], [EMPTY], [];
    }

    /** What every handler does: answer, and when it accepts take one step of the table. */
    twostate predicate Handled(e: Event, answer: Answer)
      reads this
    {
      && answer == Respond(old(jobs), e)
      && jobs == (if answer == Ok then After(old(jobs), e) else old(jobs))
      && events == (if answer == Ok then old(events) + [e] else old(events))
      && old(states) <= states
    }

    ghost method Record(before: Jobs, e: Event)
      requires Run(states, events) && states[|events|].jobs == before
      requires Possible(before, e) && Respond(before, e) == Ok && jobs == After(before, e)
      modifies `states, `events
      ensures Valid() && events == old(events) + [e] && old(states) <= states
    {
      var s := State(jobs, Recorded(states[|events|].past, before, e));
      LongerRun(states, events, e, s);
      states, events := states + [s], events + [e];
    }

    method CreateJob(id: nat, spec: JobSpec, knownRooms: set<string>) returns (answer: Answer)
      requires Valid() && id !in jobs
      modifies this
      ensures Valid() && Handled(Create(id, spec, knownRooms), answer)
      ensures answer == Ok <==> spec.timeStart < spec.timeEnd && 1 <= |spec.rooms| <= 32
                                && forall i :: 0 <= i < |spec.rooms| ==> spec.rooms[i] in knownRooms
      ensures jobs == if answer == Ok then old(jobs)[id := Job(Queued, spec, None, None, None, None, None, None)] else old(jobs)
    {
      if |spec.rooms| < 1 || |spec.rooms| > MAX_ROOMS {
        return Unprocessable;
      }
      if spec.timeEnd <= spec.timeStart {
        return Unprocessable;
      }
      var unknown := set i | 0 <= i < |spec.rooms| && spec.rooms[i] !in knownRooms :: spec.rooms[i];
      if unknown != {} {
        return Unprocessable;
      }
      assert forall i :: 0 <= i < |spec.rooms| ==> spec.rooms[i] !in unknown;
      ghost var before := jobs;
      jobs := jobs[id := Job(Queued, spec, None, None, None, None, None, None)];
      Record(before, Create(id, spec, knownRooms));
      return Ok;
    }

    method ClaimJob(id: nat, daemon: nat, token: string, now: int, knownDaemons: set<nat>) returns (answer: Answer)
      requires Valid()
      modifies this
      ensures Valid() && Handled(Claim(id, daemon, token, now, knownDaemons), answer)
      ensures answer == NotFound <==> daemon !in knownDaemons
      ensures answer == Conflict <==> daemon in knownDaemons && (id !in old(jobs) || old(jobs)[id].status != Queued)
      ensures answer == Ok <==> daemon in knownDaemons && id in old(jobs) && old(jobs)[id].status == Queued
                                && forall other :: other in old(jobs) ==> old(jobs)[other].token != Some(token)
      ensures jobs == if answer == Ok then old(jobs)[id := Job(Running, old(jobs)[id].spec, Some(daemon), Some(token), Some(now),
                        Some(now), old(jobs)[id].completedAt, old(jobs)[id].error)] else old(jobs)
    {
      if daemon !in knownDaemons {
        return NotFound;
      }
      if id !in jobs || jobs[id].status != Queued {
        return Conflict;
      }
      if exists other :: other in jobs && jobs[other].token == Some(token) {
        return ServerError;
      }
      ghost var before := jobs;
      jobs := jobs[id := jobs[id].(status := Running, daemon := Some(daemon), token := Some(token),
                                   claimedAt := Some(now), heartbeatAt := Some(now))];
      Record(before, Claim(id, daemon, token, now, knownDaemons));
      return Ok;
    }

    method HeartbeatJob(id: nat, daemon: nat, token: string, now: int) returns (answer: Answer)
      requires Valid()
      modifies this
      ensures Valid() && Handled(Heartbeat(id, daemon, token, now), answer)
      ensures answer == Ok <==> id in old(jobs) && old(jobs)[id].status == Running
                                && old(jobs)[id].daemon == Some(daemon) && old(jobs)[id].token == Some(token)
      ensures jobs == if answer == Ok then old(jobs)[id := old(jobs)[id].(heartbeatAt := Some(now))] else old(jobs)
    {
      if id in jobs && jobs[id].status == Running && jobs[id].daemon == Some(daemon) && jobs[id].token == Some(token) {
        ghost var before := jobs;
        jobs := jobs[id := jobs[id].(heartbeatAt := Some(now))];
        Record(before, Heartbeat(id, daemon, token, now));
        return Ok;
      }
      return Conflict;
    }

    method CompleteJob(id: nat, daemon: nat, token: string, now: int) returns (answer: Answer)
      requires Valid()
      modifies this
      ensures Valid() && Handled(Finish(id, daemon, token, now), answer)
      ensures answer == Ok <==> id in old(jobs) && old(jobs)[id].status == Running
                                && old(jobs)[id].daemon == Some(daemon) && old(jobs)[id].token == Some(token)
      ensures jobs == if answer == Ok then
                        old(jobs)[id := old(jobs)[id].(status := Complete, completedAt := Some(now), token := None)]
                      else old(jobs)
    {
      if id in jobs && jobs[id].status == Running && jobs[id].daemon == Some(daemon) && jobs[id].token == Some(token) {
        ghost var before := jobs;
        jobs := jobs[id := jobs[id].(status := Complete, completedAt := Some(now), token := None)];
        Record(before, Finish(id, daemon, token, now));
        return Ok;
      }
      return Conflict;
    }

    method FailJob(id: nat, daemon: nat, token: string, error: string, now: int) returns (answer: Answer)
      requires Valid()
      modifies this
      ensures Valid() && Handled(Fail(id, daemon, token, error, now), answer)
      ensures answer == Ok <==> id in old(jobs) && old(jobs)[id].status == Running
                                && old(jobs)[id].daemon == Some(daemon) && old(jobs)[id].token == Some(token)
      ensures jobs == if answer == Ok then
                        old(jobs)[id := old(jobs)[id].(status := Failed, completedAt := Some(now), error := Some(error), token := None)]
                      else old(jobs)
    {
      if id in jobs && jobs[id].status == Running && jobs[id].daemon == Some(daemon) && jobs[id].token == Some(token) {
        ghost var before := jobs;
        jobs := jobs[id := jobs[id].(status := Failed, completedAt := Some(now), error := Some(error), token := None)];
        Record(before, Fail(id, daemon, token, error, now));
        return Ok;
      }
      return Conflict;
    }

    method CancelJob(id: nat, now: int) returns (answer: Answer)
      requires Valid()
      modifies this
      ensures Valid() && Handled(Cancel(id, now), answer)
      ensures answer == Ok <==> id in old(jobs) && (old(jobs)[id].status == Queued || old(jobs)[id].status == Running)
      ensures jobs == if answer == Ok then
                        old(jobs)[id := old(jobs)[id].(status := Cancelled, completedAt := Some(now), token := None)]
                      else old(jobs)
    {
      if id in jobs && (jobs[id].status == Queued || jobs[id].status == Running) {
        ghost var before := jobs;
        jobs := jobs[id := jobs[id].(status := Cancelled, completedAt := Some(now), token := None)];
        Record(before, Cancel(id, now));
        return Ok;
      }
      return Conflict;
    }

    method ReapOnce(now: int, timeout: int, copies: map<nat, nat>)
      requires Valid() && Possible(jobs, Reap(now, timeout, copies))
      modifies this
      ensures Valid() && Handled(Reap(now, timeout, copies), Ok)
      ensures Ticked(old(jobs), jobs, now, timeout, copies)
    {
      ghost var before := jobs;
      ghost var stale := Stale(jobs, now, timeout);
      var failed := map id | id in jobs ::
        if jobs[id].status == Running && jobs[id].heartbeatAt.Some? && jobs[id].heartbeatAt.value < now - timeout
        then jobs[id].(status := Failed, completedAt := Some(now), error := Some(TIMEOUT_ERROR), token := None)
        else jobs[id];
      assert failed == Reaped(jobs, stale, now);
      jobs := failed + map c | c in copies && copies[c] in jobs :: Fresh(jobs[copies[c]].spec);
      Record(before, Reap(now, timeout, copies));
      TickIsTicked(before, now, timeout, copies);
    }
  }
}
