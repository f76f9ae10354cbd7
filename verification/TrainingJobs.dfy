/**
 The training-job table and the handlers that change it. Every handler is one
 conditional UPDATE (or one INSERT) in one transaction, so it is one atomic step.
 Row ids and claim tokens come from the database and from `secrets`; here they
 are inputs of the step.
 */
module TrainingJobs {
  import opened Wrappers

  const MAX_ROOMS: nat := 32
  const TIMEOUT_ERROR: string := "daemon heartbeat timeout"

  datatype Status = Queued | Running | Failed | Complete | Cancelled

  datatype JobSpec = JobSpec(timeStart: int, timeEnd: int, rooms: seq<string>, model: string)

  datatype Job = Job(status: Status, spec: JobSpec, daemon: Option<nat>, token: Option<string>,
                     claimedAt: Option<int>, heartbeatAt: Option<int>, completedAt: Option<int>,
                     error: Option<string>)

  type Jobs = map<nat, Job>

  /** What reaches the table: a request to a handler, or one tick of the orphan reaper. */
  datatype Event =
    | Create(id: nat, spec: JobSpec, knownRooms: set<string>)
    | Claim(id: nat, daemon: nat, token: string, now: int, knownDaemons: set<nat>)
    | Heartbeat(id: nat, daemon: nat, token: string, now: int)
    | Finish(id: nat, daemon: nat, token: string, now: int)
    | Fail(id: nat, daemon: nat, token: string, error: string, now: int)
    | Cancel(id: nat, now: int)
    | Reap(now: int, timeout: int, copies: map<nat, nat>)

  datatype Answer = Ok | NotFound | Conflict | Unprocessable | ServerError

  function Fresh(spec: JobSpec): Job {
    Job(Queued, spec, None, None, None, None, None, None)
  }

  // ------------------------------------------------------------------- guards

  predicate GoodSpec(spec: JobSpec, knownRooms: set<string>) {
    && spec.timeStart < spec.timeEnd
    && 1 <= |spec.rooms| <= MAX_ROOMS
    && forall i :: 0 <= i < |spec.rooms| ==> spec.rooms[i] in knownRooms
  }

  predicate HeldBy(jobs: Jobs, id: nat, daemon: nat, token: string) {
    id in jobs && jobs[id].status == Running && jobs[id].daemon == Some(daemon) && jobs[id].token == Some(token)
  }

  predicate TokenInUse(jobs: Jobs, token: string) {
    exists id :: id in jobs && jobs[id].token == Some(token)
  }

  /** Running rows whose last heartbeat is older than the timeout. */
  function Stale(jobs: Jobs, now: int, timeout: int): set<nat> {
    set id | id in jobs && jobs[id].status == Running
             && jobs[id].heartbeatAt.Some? && jobs[id].heartbeatAt.value < now - timeout
  }

  function Respond(jobs: Jobs, e: Event): Answer {
    match e
    case Create(_, spec, knownRooms) => if GoodSpec(spec, knownRooms) then Ok else Unprocessable
    case Claim(id, daemon, token, _, knownDaemons) =>
      if daemon !in knownDaemons then NotFound
      else if id !in jobs || jobs[id].status != Queued then Conflict
      else if TokenInUse(jobs, token) then ServerError
      else Ok
    case Heartbeat(id, daemon, token, _) => if HeldBy(jobs, id, daemon, token) then Ok else Conflict
    case Finish(id, daemon, token, _) => if HeldBy(jobs, id, daemon, token) then Ok else Conflict
    case Fail(id, daemon, token, _, _) => if HeldBy(jobs, id, daemon, token) then Ok else Conflict
    case Cancel(id, _) =>
      if id in jobs && jobs[id].status in {Queued, Running} then Ok else Conflict
    case Reap(_, _, _) => Ok
  }

  /** The database hands out ids no row has; the reaper copies each stale row exactly once. */
  ghost predicate Possible(jobs: Jobs, e: Event) {
    match e
    case Create(id, _, _) => id !in jobs
    case Reap(now, timeout, copies) =>
      && (forall c :: c in copies ==> c !in jobs && copies[c] in Stale(jobs, now, timeout))
      && (forall id :: id in Stale(jobs, now, timeout) ==> exists c :: c in copies && copies[c] == id)
      && (forall c, d :: c in copies && d in copies && copies[c] == copies[d] ==> c == d)
    case _ => true
  }

  /** The table after an accepted event. */
  function After(jobs: Jobs, e: Event): Jobs
    requires Respond(jobs, e) == Ok
  {
    match e
    case Create(id, spec, _) => jobs[id := Fresh(spec)]
    case Claim(id, daemon, token, now, _) =>
      jobs[id := jobs[id].(status := Running, daemon := Some(daemon), token := Some(token),
                           claimedAt := Some(now), heartbeatAt := Some(now))]
    case Heartbeat(id, _, _, now) => jobs[id := jobs[id].(heartbeatAt := Some(now))]
    case Finish(id, _, _, now) =>
      jobs[id := jobs[id].(status := Complete, completedAt := Some(now), token := None)]
    case Fail(id, _, _, error, now) =>
      jobs[id := jobs[id].(status := Failed, completedAt := Some(now), error := Some(error), token := None)]
    case Cancel(id, now) =>
      jobs[id := jobs[id].(status := Cancelled, completedAt := Some(now), token := None)]
    case Reap(now, timeout, copies) => Reaped(jobs, Stale(jobs, now, timeout), now) + Copied(jobs, copies)
  }

  /** The UPDATE of the reaper. */
  function Reaped(jobs: Jobs, ids: set<nat>, now: int): Jobs {
    map id | id in jobs :: if id in ids then TimedOut(jobs[id], now) else jobs[id]
  }

  function TimedOut(job: Job, now: int): Job {
    job.(status := Failed, completedAt := Some(now), error := Some(TIMEOUT_ERROR), token := None)
  }

  /** The INSERT of the reaper: a queued copy of each reaped row's spec; `copies` maps new ids to old ones. */
  function Copied(jobs: Jobs, copies: map<nat, nat>): Jobs {
    map c | c in copies && copies[c] in jobs :: Fresh(jobs[copies[c]].spec)
  }
}
