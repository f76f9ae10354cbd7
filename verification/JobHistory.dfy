/**
 What the rows of a run say about its events: when a row was last heard of, what the
 reaper does with it, and how it came to its end. Stated in the numbers of the events.
 */
module JobHistory {
  import opened Wrappers
  import opened TrainingJobs
  import opened JobLineage

  // -------------------------------------------------------------- signs of life

  /** An accepted claim or heartbeat of the row. */
  ghost predicate Beat(states: seq<State>, events: seq<Event>, k: nat, id: nat)
    requires |states| == |events| + 1
  {
    Accepted(states, events, k) && (events[k].Claim? || events[k].Heartbeat?) && events[k].id == id
  }

  /** The last of them before the j-th event. */
  ghost predicate LastBeat(states: seq<State>, events: seq<Event>, k: nat, id: nat, j: nat)
    requires |states| == |events| + 1
  {
    k < j && Beat(states, events, k, id) && forall m :: k < m < j ==> !Beat(states, events, m, id)
  }

  predicate Runs(jobs: Jobs, id: nat) {
    id in jobs && jobs[id].status == Running
  }

  /** A row that starts to run does so by a claim, which is a sign of life like a heartbeat. */
  lemma BeatIsRecorded(s: State, e: Event, s': State, id: nat)
    requires Next(s, e, s') && Runs(s'.jobs, id)
    ensures if Respond(s.jobs, e) == Ok && (e.Claim? || e.Heartbeat?) && e.id == id
            then s'.jobs[id].heartbeatAt == Some(e.now)
            else Runs(s.jobs, id) && s'.jobs[id].heartbeatAt == s.jobs[id].heartbeatAt
  {
  }

  /** The heartbeat time of a running row is that of its last sign of life. */
  lemma {:induction false} HeartbeatIsLastBeat(states: seq<State>, events: seq<Event>, j: nat, id: nat, k: nat)
    requires Run(states, events) && j < |states| && Runs(states[j].jobs, id) && LastBeat(states, events, k, id, j)
    ensures states[j].jobs[id].heartbeatAt == Some(events[k].now)
    decreases j
  {
    StepAt(states, events, |events|, j - 1);
    BeatIsRecorded(states[j - 1], events[j - 1], states[j], id);
    if k < j - 1 {
      assert !Beat(states, events, j - 1, id);
      HeartbeatIsLastBeat(states, events, j - 1, id, k);
    }
  }

  lemma {:induction false} LastBeatExists(states: seq<State>, events: seq<Event>, j: nat, id: nat) returns (k: nat)
    requires Run(states, events) && j < |states| && Runs(states[j].jobs, id)
    ensures LastBeat(states, events, k, id, j)
    decreases j
  {
    StepAt(states, events, |events|, j - 1);
    BeatIsRecorded(states[j - 1], events[j - 1], states[j], id);
    if Beat(states, events, j - 1, id) {
      k := j - 1;
    } else {
      k := LastBeatExists(states, events, j - 1, id);
    }
  }

  /** A new row that waits with the spec of an old one. */
  predicate QueuedCopy(jobs: Jobs, jobs': Jobs, c: nat, id: nat) {
    && c !in jobs && c in jobs' && id in jobs
    && jobs'[c].status == Queued && jobs'[c].spec == jobs[id].spec && jobs'[c].token == None && jobs'[c].daemon == None
  }

  /**
   A tick of the reaper: a running row last heard of within the timeout is left alone; one
   last heard of before is failed by timeout, and exactly one copy of it is queued.
   */
  lemma ReaperGoesByTheLastBeat(states: seq<State>, events: seq<Event>, j: nat, id: nat, k: nat)
    requires Run(states, events) && j < |events| && events[j].Reap?
    requires Runs(states[j].jobs, id) && LastBeat(states, events, k, id, j)
    ensures id in states[j + 1].jobs
    ensures events[k].now >= events[j].now - events[j].timeout ==>
              states[j + 1].jobs[id] == states[j].jobs[id] && forall c :: c in events[j].copies ==> events[j].copies[c] != id
    ensures events[k].now < events[j].now - events[j].timeout ==>
              && TimedOutRow(states[j + 1].jobs, id)
              && (exists c :: c in events[j].copies && events[j].copies[c] == id && QueuedCopy(states[j].jobs, states[j + 1].jobs, c, id))
              && (forall c, d :: c in events[j].copies && d in events[j].copies && events[j].copies[c] == id && events[j].copies[d] == id ==> c == d)
    ensures states[j + 1].jobs.Keys == states[j].jobs.Keys + events[j].copies.Keys
  {
    var jobs, e := states[j].jobs, events[j];
    StepAt(states, events, |events|, j);
    HeartbeatIsLastBeat(states, events, j, id, k);
    ReapRequeues(jobs, e);
    assert jobs[id].heartbeatAt == Some(events[k].now);
    assert id in Stale(jobs, e.now, e.timeout) <==> events[k].now < e.now - e.timeout;
  }

  /** A tick leaves every row alone that is not running. */
  lemma ReaperLeavesTheRest(states: seq<State>, events: seq<Event>, j: nat, id: nat)
    requires Run(states, events) && j < |events| && events[j].Reap?
    requires id in states[j].jobs && states[j].jobs[id].status != Running
    ensures id in states[j + 1].jobs && states[j + 1].jobs[id] == states[j].jobs[id]
  {
    StepAt(states, events, |events|, j);
    ReapRequeues(states[j].jobs, events[j]);
  }

  // ------------------------------------------------------------- beginnings and ends

  /** The event that ended a row, and what it left there. */
  predicate EndedBy(e: Event, id: nat, job: Job) {
    job.token == None &&
    match e
    case Finish(i, _, _, now) => i == id && job.status == Complete && job.completedAt == Some(now) && job.error == None
    case Fail(i, _, _, error, now) => i == id && job.status == Failed && job.completedAt == Some(now) && job.error == Some(error)
    case Cancel(i, now) => i == id && job.status == Cancelled && job.completedAt == Some(now) && job.error == None
    case Reap(now, _, _) => job.status == Failed && job.completedAt == Some(now) && job.error == Some("daemon heartbeat timeout")
    case _ => false
  }

  /** What a row says before its end. */
  predicate Unended(job: Job) {
    && job.completedAt == None && job.error == None
    && (job.status == Queued ==> job.claimedAt == None && job.heartbeatAt == None && job.daemon == None && job.token == None)
  }

  lemma NextKeepsUnended(s: State, e: Event, s': State, id: nat)
    requires Next(s, e, s') && id in s'.jobs && !Terminal(s'.jobs[id])
    requires id in s.jobs && !Terminal(s.jobs[id]) ==> Unended(s.jobs[id])
    ensures Unended(s'.jobs[id])
  {
    if s' != s && e.Reap? {
      ReapRequeues(s.jobs, e);
    } else if id in s.jobs {
      NextSettlesRow(s, e, s', id);
    }
  }

  lemma {:induction false} LiveRowsAreUnended(states: seq<State>, events: seq<Event>, j: nat, id: nat)
    requires Run(states, events) && j < |states| && id in states[j].jobs && !Terminal(states[j].jobs[id])
    ensures Unended(states[j].jobs[id])
    decreases j
  {
    if j > 0 {
      StepAt(states, events, |events|, j - 1);
      if id in states[j - 1].jobs && !Terminal(states[j - 1].jobs[id]) {
        LiveRowsAreUnended(states, events, j - 1, id);
      }
      NextKeepsUnended(states[j - 1], events[j - 1], states[j], id);
    }
  }

  lemma RequestEnds(s: State, e: Event, s': State, id: nat)
    requires Next(s, e, s') && !e.Reap? && id in s.jobs && Unended(s.jobs[id]) && !Terminal(s.jobs[id])
    requires id in s'.jobs && Terminal(s'.jobs[id])
    ensures Respond(s.jobs, e) == Ok && EndedBy(e, id, s'.jobs[id])
  {
  }

  lemma TickEnds(s: State, e: Event, s': State, id: nat)
    requires Next(s, e, s') && e.Reap? && id in s.jobs && Unended(s.jobs[id]) && !Terminal(s.jobs[id])
    requires id in s'.jobs && Terminal(s'.jobs[id])
    ensures EndedBy(e, id, s'.jobs[id])
  {
    ReapRequeues(s.jobs, e);
    assert s'.jobs[id] == TimedOut(s.jobs[id], e.now);
  }

  lemma EndsNow(s: State, e: Event, s': State, id: nat)
    requires Next(s, e, s') && id in s.jobs && Unended(s.jobs[id]) && !Terminal(s.jobs[id])
    requires id in s'.jobs && Terminal(s'.jobs[id])
    ensures Respond(s.jobs, e) == Ok && EndedBy(e, id, s'.jobs[id])
  {
    if e.Reap? {
      TickEnds(s, e, s', id);
    } else {
      RequestEnds(s, e, s', id);
    }
  }

  lemma EndsAt(states: seq<State>, events: seq<Event>, i: nat, id: nat)
    requires Run(states, events) && i < |events| && id in states[i + 1].jobs && Terminal(states[i + 1].jobs[id])
    ensures id in states[i].jobs
    ensures Terminal(states[i].jobs[id]) ==> states[i + 1].jobs[id] == states[i].jobs[id]
    ensures !Terminal(states[i].jobs[id]) ==> Accepted(states, events, i) && EndedBy(events[i], id, states[i + 1].jobs[id])
  {
    StepAt(states, events, |events|, i);
    NewRowsAreLive(states[i], events[i], states[i + 1], id);
    NextSettlesRow(states[i], events[i], states[i + 1], id);
    if !Terminal(states[i].jobs[id]) {
      LiveRowsAreUnended(states, events, i, id);
      EndsNow(states[i], events[i], states[i + 1], id);
    }
  }

  /** Every ended row was ended by one accepted request or tick, which left its status, error and time there. */
  lemma {:induction false} EveryEndIsExplained(states: seq<State>, events: seq<Event>, j: nat, id: nat) returns (k: nat)
    requires Run(states, events) && j < |states| && id in states[j].jobs && Terminal(states[j].jobs[id])
    ensures k < j && Accepted(states, events, k) && EndedBy(events[k], id, states[j].jobs[id])
    ensures id in states[k].jobs && !Terminal(states[k].jobs[id])
    decreases j
  {
    k := j - 1;
    EndsAt(states, events, k, id);
    if Terminal(states[k].jobs[id]) {
      k := EveryEndIsExplained(states, events, k, id);
    }
  }

  lemma NewRowsAreLive(s: State, e: Event, s': State, id: nat)
    requires Next(s, e, s') && id in s'.jobs && Terminal(s'.jobs[id])
    ensures id in s.jobs
  {
    if e.Reap? {
      ReapRequeues(s.jobs, e);
    }
  }

  /** Every row of every run has a forward window and 1 to 32 rooms. */
  lemma {:induction false} SpecsAreGood(states: seq<State>, events: seq<Event>, j: nat, id: nat)
    requires Run(states, events) && j < |states| && id in states[j].jobs
    ensures states[j].jobs[id].spec.timeStart < states[j].jobs[id].spec.timeEnd && 1 <= |states[j].jobs[id].spec.rooms| <= 32
    decreases j
  {
    StepAt(states, events, |events|, j - 1);
    var s, e := states[j - 1], events[j - 1];
    NextSettlesRow(s, e, states[j], id);
    if id in s.jobs {
      SpecsAreGood(states, events, j - 1, id);
    } else if e.Reap? {
      ReapRequeues(s.jobs, e);
      SpecsAreGood(states, events, j - 1, e.copies[id]);
    }
  }
}
