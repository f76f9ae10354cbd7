/**
 The daemons' side of the job protocol. Each worker follows one claimed job:
 train, upload the model, report. Requests travel: one that was sent may reach
 the table at any later time, more than once, or never, and an answer may be
 lost. Requests that do not complete a job may come from anyone at any time.
 */
module JobDaemons {
  import opened Wrappers
  import opened TrainingJobs

  datatype Phase =
    | Idle
    | Training(id: nat, daemon: nat, token: string)
    | Uploading(id: nat, daemon: nat, token: string)
    | Completing(id: nat, daemon: nat, token: string)

  /** A stored model: who made it and which job it names. */
  datatype Model = Model(daemon: nat, job: nat)

  /** A completion request. */
  datatype Report = Report(id: nat, daemon: nat, token: string)

  /** `uploads` and `reports` are the upload and completion requests sent so far. */
  datatype System = System(jobs: Jobs, models: set<Model>, workers: map<nat, Phase>,
                           uploads: set<Model>, reports: set<Report>)

  const START := System(map[], {}, map[], {}, {})

  function PhaseOf(s: System, worker: nat): Phase {
    if worker in s.workers then s.workers[worker] else Idle
  }

  /** The table handles a request; a completion is one some worker sent. */
  ghost predicate Handles(s: System, e: Event, s': System) {
    && Possible(s.jobs, e)
    && (e.Finish? ==> Report(e.id, e.daemon, e.token) in s.reports)
    && s' == s.(jobs := if Respond(s.jobs, e) == Ok then After(s.jobs, e) else s.jobs)
  }

  /** The worker goes on with its job, as far as the last answer allows; any failure ends it. */
  ghost predicate Works(s: System, worker: nat, next: Phase, s': System) {
    match PhaseOf(s, worker)
    case Idle =>
      // the answer to a claim
      (next.Training? || next.Idle?) && s' == s.(workers := s.workers[worker := next])
    case Training(id, daemon, token) =>
      if next == Uploading(id, daemon, token) then
        s' == s.(workers := s.workers[worker := next], uploads := s.uploads + {Model(daemon, id)})
      else
        next == Idle && s' == s.(workers := s.workers[worker := Idle])
    case Uploading(id, daemon, token) =>
      if next == Completing(id, daemon, token) then
        // the answer to the upload, given after the commit
        Model(daemon, id) in s.models && s' == s.(workers := s.workers[worker := next])
      else
        next == Idle && s' == s.(workers := s.workers[worker := Idle])
    case Completing(id, daemon, token) =>
      next == Idle && s' == s.(workers := s.workers[worker := Idle], reports := s.reports + {Report(id, daemon, token)})
  }

  /** The registry stores the model of an upload that was sent. */
  ghost predicate Stores(s: System, upload: Model, s': System) {
    upload in s.uploads && s' == s.(models := s.models + {upload})
  }

  ghost predicate Moves(s: System, s': System) {
    || (exists e :: Handles(s, e, s'))
    || (exists worker, next :: Works(s, worker, next, s'))
    || (exists upload :: Stores(s, upload, s'))
  }

  // ------------------------------------------------------------------ the claim

  ghost predicate ReportsFollowUploads(s: System) {
    && (forall r :: r in s.reports ==> Model(r.daemon, r.id) in s.models)
    && (forall w :: w in s.workers && s.workers[w].Completing? ==> Model(s.workers[w].daemon, s.workers[w].id) in s.models)
  }

  /** A complete row has a stored model that names it, made by the daemon on the row. */
  predicate Backed(s: System, id: nat) {
    id in s.jobs && s.jobs[id].status == Complete ==>
      s.jobs[id].daemon.Some? && Model(s.jobs[id].daemon.value, id) in s.models
  }

  lemma HandledKeepsBacked(s: System, e: Event, s': System, id: nat)
    requires ReportsFollowUploads(s) && Backed(s, id) && Handles(s, e, s')
    ensures Backed(s', id)
  {
  }

  lemma MoveKeepsBacked(s: System, s': System, id: nat)
    requires ReportsFollowUploads(s) && Backed(s, id) && Moves(s, s')
    ensures Backed(s', id)
  {
    if e :| Handles(s, e, s') {
      HandledKeepsBacked(s, e, s', id);
    }
  }

  lemma MoveKeepsReports(s: System, s': System)
    requires ReportsFollowUploads(s) && Moves(s, s')
    ensures ReportsFollowUploads(s')
  {
    if worker, next :| Works(s, worker, next, s') {
      assert next.Completing? ==> Model(next.daemon, next.id) in s.models;
    }
  }

  ghost predicate Run(states: seq<System>) {
    |states| > 0 && states[0] == START && forall i :: 0 < i < |states| ==> Moves(states[i - 1], states[i])
  }

  lemma {:induction false} RunKeepsReports(states: seq<System>, i: nat)
    requires Run(states) && i < |states|
    ensures ReportsFollowUploads(states[i])
  {
    if i > 0 {
      RunKeepsReports(states, i - 1);
      MoveKeepsReports(states[i - 1], states[i]);
    }
  }

  /** When every completion comes from a worker, a complete row always has an uploaded model naming it. */
  lemma {:induction false} CompleteRowsHaveModels(states: seq<System>, i: nat, id: nat)
    requires Run(states) && i < |states|
    ensures Backed(states[i], id)
  {
    if i > 0 {
      CompleteRowsHaveModels(states, i - 1, id);
      RunKeepsReports(states, i - 1);
      MoveKeepsBacked(states[i - 1], states[i], id);
    }
  }
}
