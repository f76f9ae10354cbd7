/**
 Whole runs of the job table: any number of daemons, requests in any order,
 stale tokens, reaper ticks at any time. A history kept beside the table records
 which rows descend from which submission and who claimed each row.
 */
module JobLineage {
  import opened Wrappers
  import opened TrainingJobs

  /** Where a row stands: the `index`-th row of the submission that created row `origin`. */
  datatype Place = Place(origin: nat, index: nat)
  datatype Holder = Holder(daemon: nat, token: string)

  /** `source` maps each row the reaper inserted to the row it copies. */
  datatype History = History(place: map<nat, Place>, source: map<nat, nat>, reaped: set<nat>, claims: map<nat, Holder>)

  datatype State = State(jobs: Jobs, past: History)

  const EMPTY := State(map[], History(map[], map[], {}, map[]))

  ghost function Recorded(past: History, jobs: Jobs, e: Event): History {
    match e
    case Create(id, _, _) => past.(place := past.place[id := Place(id, 0)])
    case Claim(id, daemon, token, _, _) => past.(claims := past.claims[id := Holder(daemon, token)])
    case Reap(now, timeout, copies) =>
      past.(place := past.place + Placed(past.place, copies),
            source := past.source + copies,
            reaped := past.reaped + Stale(jobs, now, timeout))
    case _ => past
  }

  ghost function Placed(place: map<nat, Place>, copies: map<nat, nat>): map<nat, Place> {
    map c | c in copies && copies[c] in place :: Place(place[copies[c]].origin, place[copies[c]].index + 1)
  }

  ghost predicate Next(s: State, e: Event, s': State) {
    && Possible(s.jobs, e)
    && s' == if Respond(s.jobs, e) == Ok then State(After(s.jobs, e), Recorded(s.past, s.jobs, e)) else s
  }

  // --------------------------------------------------------------- invariants

  predicate TimedOutRow(jobs: Jobs, id: nat) {
    id in jobs && jobs[id].status == Failed && jobs[id].error == Some(TIMEOUT_ERROR)
  }

  /** The row stands in the chain of a submission whose spec it carries. */
  predicate Rooted(s: State, id: nat) {
    && id in s.jobs && id in s.past.place
    && var o := s.past.place[id].origin;
       o in s.jobs && o in s.past.place && s.past.place[o] == Place(o, 0) && s.jobs[id].spec == s.jobs[o].spec
  }

  /** A row that is not the first copies the row before it, which the reaper has failed. */
  predicate Sourced(s: State, id: nat)
    requires id in s.past.place
  {
    && (id in s.past.source <==> s.past.place[id].index > 0)
    && (id in s.past.source ==>
          var before := s.past.source[id];
          && before in s.past.place
          && s.past.place[id] == Place(s.past.place[before].origin, s.past.place[before].index + 1)
          && TimedOutRow(s.jobs, before))
  }

  /** A token is set exactly while the row is running, and then daemon and token are those of the row's claim. */
  predicate Held(s: State, id: nat)
    requires id in s.jobs
  {
    && (s.jobs[id].token.Some? <==> s.jobs[id].status == Running)
    && (s.jobs[id].status == Running ==>
          && id in s.past.claims
          && s.jobs[id].daemon == Some(s.past.claims[id].daemon)
          && s.jobs[id].token == Some(s.past.claims[id].token)
          && s.jobs[id].heartbeatAt.Some?)
    && (id in s.past.claims ==> s.jobs[id].status != Queued)
  }

  ghost predicate AllRooted(s: State) {
    && s.past.place.Keys == s.jobs.Keys
    && forall id :: id in s.past.place ==> Rooted(s, id)
  }

  ghost predicate AllSourced(s: State) {
    && s.past.place.Keys == s.jobs.Keys
    && s.past.source.Keys <= s.jobs.Keys
    && forall id :: id in s.past.place ==> Sourced(s, id)
  }

  /** The reaper copies every row it fails. */
  ghost predicate ReapedAreCopied(s: State) {
    && (forall c :: c in s.past.source ==> s.past.source[c] in s.past.reaped)
    && (forall id :: id in s.past.reaped ==> exists c :: c in s.past.source && s.past.source[c] == id)
  }

  ghost predicate OnePerPlace(s: State) {
    forall a, b :: a in s.past.place && b in s.past.place && s.past.place[a] == s.past.place[b] ==> a == b
  }

  ghost predicate AllHeld(s: State) {
    && s.past.claims.Keys <= s.jobs.Keys
    && forall id :: id in s.jobs ==> Held(s, id)
  }

  ghost predicate TokensDiffer(s: State) {
    forall a, b :: a in s.jobs && b in s.jobs && s.jobs[a].token.Some? && s.jobs[a].token == s.jobs[b].token ==> a == b
  }

  ghost predicate Inv(s: State) {
    AllRooted(s) && AllSourced(s) && ReapedAreCopied(s) && OnePerPlace(s) && AllHeld(s) && TokensDiffer(s)
  }

  // ---------------------------------------------------------------- preservation

  lemma CreateKeepsPlaces(s: State, e: Event, s': State)
    requires AllRooted(s) && AllSourced(s) && OnePerPlace(s) && Next(s, e, s') && e.Create? && s' != s
    ensures AllRooted(s') && OnePerPlace(s')
  {
    forall id | id in s'.past.place ensures Rooted(s', id) {
      if id != e.id { assert Rooted(s, id); }
    }
    forall a, b | a in s'.past.place && b in s'.past.place && s'.past.place[a] == s'.past.place[b] ensures a == b {
      assert a != e.id ==> Rooted(s, a);
      assert b != e.id ==> Rooted(s, b);
    }
  }

  lemma CreateKeepsSources(s: State, e: Event, s': State)
    requires AllSourced(s) && Next(s, e, s') && e.Create? && s' != s
    ensures AllSourced(s')
  {
    forall id | id in s'.past.place ensures Sourced(s', id) {
      if id != e.id { assert Sourced(s, id); }
    }
  }

  lemma CreateKeepsHolders(s: State, e: Event, s': State)
    requires AllHeld(s) && TokensDiffer(s) && Next(s, e, s') && e.Create? && s' != s
    ensures AllHeld(s') && TokensDiffer(s')
  {
    forall id | id in s'.jobs ensures Held(s', id) {
      if id != e.id { assert Held(s, id); }
    }
  }

  /** What every accepted request but a submission does: it rewrites one row that is queued or running. */
  ghost predicate Rewritten(jobs: Jobs, id: nat, jobs': Jobs) {
    && id in jobs && jobs[id].status in {Queued, Running}
    && jobs'.Keys == jobs.Keys
    && jobs'[id].spec == jobs[id].spec
    && forall other :: other in jobs && other != id ==> jobs'[other] == jobs[other]
  }

  lemma RequestRewrites(s: State, e: Event, s': State)
    requires Next(s, e, s') && !e.Create? && !e.Reap? && s' != s
    ensures Rewritten(s.jobs, e.id, s'.jobs)
    ensures s'.past.(claims := s.past.claims) == s.past
  {
  }

  lemma RewrittenKeepsRoots(s: State, id: nat, s': State)
    requires AllRooted(s) && OnePerPlace(s) && Rewritten(s.jobs, id, s'.jobs)
    requires s'.past.(claims := s.past.claims) == s.past
    ensures AllRooted(s') && OnePerPlace(s')
  {
    forall id | id in s'.past.place ensures Rooted(s', id) {
      assert Rooted(s, id);
    }
  }

  lemma RewrittenKeepsSources(s: State, id: nat, s': State)
    requires AllSourced(s) && Rewritten(s.jobs, id, s'.jobs)
    requires s'.past.(claims := s.past.claims) == s.past
    ensures AllSourced(s')
  {
    forall id | id in s'.past.place ensures Sourced(s', id) {
      assert Sourced(s, id);
    }
  }

  lemma RequestKeepsHolders(s: State, e: Event, s': State)
    requires AllHeld(s) && TokensDiffer(s) && Next(s, e, s') && !e.Create? && !e.Reap? && s' != s
    ensures AllHeld(s') && TokensDiffer(s')
  {
    forall id | id in s'.jobs ensures Held(s', id) {
      assert Held(s, id);
    }
  }

  /** What one reaper tick does to the table: it fails the stale rows and queues one copy of each. */
  ghost predicate Requeued(jobs: Jobs, stale: set<nat>, copies: map<nat, nat>, jobs': Jobs) {
    && jobs'.Keys == jobs.Keys + copies.Keys
    && (forall id :: id in jobs && id !in stale ==> jobs'[id] == jobs[id])
    && (forall id :: id in stale ==>
          && id in jobs && jobs[id].status == Running
          && TimedOutRow(jobs', id) && jobs'[id].token == None && jobs'[id].spec == jobs[id].spec)
    && (forall c :: c in copies ==>
          c !in jobs && copies[c] in stale && copies[c] in jobs && jobs'[c] == Fresh(jobs[copies[c]].spec))
  }

  /** What it does to the history: each copy comes right behind the row it copies. */
  ghost predicate Extended(past: History, copies: map<nat, nat>, past': History) {
    && past'.claims == past.claims
    && past'.source.Keys == past.source.Keys + copies.Keys
    && past'.place.Keys == past.place.Keys + copies.Keys
    && (forall id :: id in past.source && id !in copies ==> past'.source[id] == past.source[id])
    && (forall id :: id in past.place && id !in copies ==> past'.place[id] == past.place[id])
    && (forall c :: c in copies ==>
          && past'.source[c] == copies[c] && copies[c] in past.place
          && past'.place[c] == Place(past.place[copies[c]].origin, past.place[copies[c]].index + 1))
  }

  lemma ReapExtends(s: State, e: Event)
    requires e.Reap? && Possible(s.jobs, e) && s.past.place.Keys == s.jobs.Keys
    ensures Extended(s.past, e.copies, Recorded(s.past, s.jobs, e))
  {
    assert Placed(s.past.place, e.copies).Keys == e.copies.Keys;
  }

  lemma ReapRequeues(jobs: Jobs, e: Event)
    requires e.Reap? && Possible(jobs, e)
    ensures Requeued(jobs, Stale(jobs, e.now, e.timeout), e.copies, After(jobs, e))
  {
    RequeuedBy(jobs, Stale(jobs, e.now, e.timeout), e.now, e.copies);
  }

  lemma RequeuedBy(jobs: Jobs, stale: set<nat>, now: int, copies: map<nat, nat>)
    requires forall id :: id in stale ==> id in jobs && jobs[id].status == Running
    requires forall c :: c in copies ==> c !in jobs && copies[c] in stale
    ensures Requeued(jobs, stale, copies, Reaped(jobs, stale, now) + Copied(jobs, copies))
  {
    assert Copied(jobs, copies).Keys == copies.Keys;
  }

  /** Rows keep their specs, and copies take over those of the rows they copy. */
  ghost predicate SpecsCarried(jobs: Jobs, copies: map<nat, nat>, jobs': Jobs) {
    && jobs'.Keys == jobs.Keys + copies.Keys
    && (forall id :: id in jobs ==> jobs'[id].spec == jobs[id].spec)
    && (forall c :: c in copies ==> c !in jobs && copies[c] in jobs && jobs'[c].spec == jobs[copies[c]].spec)
  }

  lemma RequeuedCarriesSpecs(jobs: Jobs, stale: set<nat>, copies: map<nat, nat>, jobs': Jobs)
    requires Requeued(jobs, stale, copies, jobs')
    ensures SpecsCarried(jobs, copies, jobs')
  {
  }

  lemma ReapKeepsRoots(s: State, copies: map<nat, nat>, s': State)
    requires AllRooted(s) && SpecsCarried(s.jobs, copies, s'.jobs) && Extended(s.past, copies, s'.past)
    ensures AllRooted(s')
  {
    forall id | id in s'.past.place ensures Rooted(s', id) {
      assert Rooted(s, if id in copies then copies[id] else id);
    }
  }

  lemma ReapKeepsSources(s: State, stale: set<nat>, copies: map<nat, nat>, s': State)
    requires AllSourced(s) && Requeued(s.jobs, stale, copies, s'.jobs) && Extended(s.past, copies, s'.past)
    ensures AllSourced(s')
  {
    forall id | id in s'.past.place ensures Sourced(s', id) {
      if id !in copies { assert Sourced(s, id); }
    }
  }

  lemma ReapCopies(s: State, e: Event, s': State)
    requires ReapedAreCopied(s) && AllSourced(s) && Next(s, e, s') && e.Reap?
    ensures ReapedAreCopied(s')
  {
    forall id | id in s'.past.reaped ensures exists c :: c in s'.past.source && s'.past.source[c] == id {
      if id in s.past.reaped {
        var c :| c in s.past.source && s.past.source[c] == id;
        assert s'.past.source[c] == id;
      } else {
        var c :| c in e.copies && e.copies[c] == id;
        assert s'.past.source[c] == id;
      }
    }
  }

  /** Two rows never share a place: a stale row is still running, so no row copies it yet. */
  lemma ReapKeepsPlaces(s: State, stale: set<nat>, copies: map<nat, nat>, s': State)
    requires AllSourced(s) && OnePerPlace(s) && Requeued(s.jobs, stale, copies, s'.jobs) && Extended(s.past, copies, s'.past)
    requires forall c, d :: c in copies && d in copies && copies[c] == copies[d] ==> c == d
    ensures OnePerPlace(s')
  {
    forall a, b | a in s'.past.place && b in s'.past.place && s'.past.place[a] == s'.past.place[b] ensures a == b {
      if a in copies && b in copies {
        assert s.past.place[copies[a]] == s.past.place[copies[b]];
      } else if a in copies {
        CopyIsNew(s, stale, copies, s', a, b);
      } else if b in copies {
        CopyIsNew(s, stale, copies, s', b, a);
      }
    }
  }

  lemma CopyIsNew(s: State, stale: set<nat>, copies: map<nat, nat>, s': State, c: nat, id: nat)
    requires AllSourced(s) && OnePerPlace(s) && Requeued(s.jobs, stale, copies, s'.jobs)
    requires c in copies && id in s.past.place
    ensures s.past.place[id] != Place(s.past.place[copies[c]].origin, s.past.place[copies[c]].index + 1)
  {
    if id in s.past.source {
      assert Sourced(s, id);
      var before := s.past.source[id];
      assert s.jobs[before].status == Failed;
      assert before != copies[c];
    } else {
      assert Sourced(s, id);
    }
  }

  lemma ReapKeepsHolders(s: State, stale: set<nat>, copies: map<nat, nat>, s': State)
    requires AllHeld(s) && Requeued(s.jobs, stale, copies, s'.jobs) && s'.past.claims == s.past.claims
    ensures AllHeld(s')
  {
    forall id | id in s'.jobs ensures Held(s', id) {
      if id in copies {
        UnclaimedIsHeld(s', id);
      } else {
        assert Held(s, id);
      }
    }
  }

  lemma UnclaimedIsHeld(s: State, id: nat)
    requires id in s.jobs && id !in s.past.claims && s.jobs[id] == Fresh(s.jobs[id].spec)
    ensures Held(s, id)
  {
  }

  lemma ReapKeepsTokens(s: State, stale: set<nat>, copies: map<nat, nat>, s': State)
    requires TokensDiffer(s) && Requeued(s.jobs, stale, copies, s'.jobs)
    ensures TokensDiffer(s')
  {
    forall id | id in s'.jobs && s'.jobs[id].token.Some? ensures id in s.jobs && s.jobs[id] == s'.jobs[id] {
      assert id !in copies && id !in stale;
    }
  }

  lemma NextKeepsInv(s: State, e: Event, s': State)
    requires Inv(s) && Next(s, e, s')
    ensures Inv(s')
  {
    if s' == s {
    } else if e.Create? {
      CreateKeepsPlaces(s, e, s');
      CreateKeepsSources(s, e, s');
      CreateKeepsHolders(s, e, s');
    } else if e.Reap? {
      var stale := Stale(s.jobs, e.now, e.timeout);
      ReapRequeues(s.jobs, e);
      ReapExtends(s, e);
      RequeuedCarriesSpecs(s.jobs, stale, e.copies, s'.jobs);
      ReapKeepsRoots(s, e.copies, s');
      ReapKeepsSources(s, stale, e.copies, s');
      ReapCopies(s, e, s');
      ReapKeepsPlaces(s, stale, e.copies, s');
      ReapKeepsHolders(s, stale, e.copies, s');
      ReapKeepsTokens(s, stale, e.copies, s');
    } else {
      RequestRewrites(s, e, s');
      RewrittenKeepsRoots(s, e.id, s');
      RewrittenKeepsSources(s, e.id, s');
      RequestKeepsHolders(s, e, s');
    }
  }

  // ---------------------------------------------------------------------- runs

  ghost predicate Run(states: seq<State>, events: seq<Event>) {
    |states| == |events| + 1 && states[0] == EMPTY && Steps(states, events, |events|)
  }

  /** The first `n` steps of the run are steps of the table. */
  ghost predicate Steps(states: seq<State>, events: seq<Event>, n: nat)
    requires |states| == |events| + 1 && n <= |events|
  {
    n > 0 ==> Steps(states, events, n - 1) && Next(states[n - 1], events[n - 1], states[n])
  }

  lemma {:induction false} StepAt(states: seq<State>, events: seq<Event>, n: nat, i: nat)
    requires |states| == |events| + 1 && i < n <= |events| && Steps(states, events, n)
    ensures Next(states[i], events[i], states[i + 1])
  {
    if i < n - 1 {
      StepAt(states, events, n - 1, i);
    }
  }

  lemma {:induction false} RunKeepsInv(states: seq<State>, events: seq<Event>, i: nat)
    requires Run(states, events) && i < |states|
    ensures Inv(states[i])
  {
    if i > 0 {
      RunKeepsInv(states, events, i - 1);
      StepAt(states, events, |events|, i - 1);
      NextKeepsInv(states[i - 1], events[i - 1], states[i]);
    }
  }

  /** The row is in its final state. */
  predicate Terminal(job: Job) {
    job.status in {Failed, Complete, Cancelled}
  }

  /** What never changes again of a row: its spec, and all of it once it is terminal. */
  ghost predicate RowSettled(jobs: Jobs, id: nat, jobs': Jobs) {
    id in jobs ==> id in jobs' && jobs'[id].spec == jobs[id].spec && (Terminal(jobs[id]) ==> jobs'[id] == jobs[id])
  }

  /** What never changes again of its history: its place and its one claim. */
  ghost predicate PastSettled(past: History, id: nat, past': History) {
    && (id in past.place ==> id in past'.place && past'.place[id] == past.place[id])
    && (id in past.claims ==> id in past'.claims && past'.claims[id] == past.claims[id])
  }

  lemma NextSettlesRow(s: State, e: Event, s': State, id: nat)
    requires Next(s, e, s')
    ensures RowSettled(s.jobs, id, s'.jobs)
  {
    if s' == s || e.Create? {
    } else if e.Reap? {
      ReapRequeues(s.jobs, e);
    } else {
      RequestRewrites(s, e, s');
    }
  }

  lemma NextSettlesPast(s: State, e: Event, s': State, id: nat)
    requires s.past.place.Keys == s.jobs.Keys && AllHeld(s) && Next(s, e, s')
    ensures PastSettled(s.past, id, s'.past)
  {
    if e.Claim? && Respond(s.jobs, e) == Ok {
      assert Held(s, e.id);
    }
  }

  lemma SettledIsTransitive(s: State, m: State, s': State, id: nat)
    requires RowSettled(s.jobs, id, m.jobs) && RowSettled(m.jobs, id, s'.jobs)
    requires PastSettled(s.past, id, m.past) && PastSettled(m.past, id, s'.past)
    ensures RowSettled(s.jobs, id, s'.jobs) && PastSettled(s.past, id, s'.past)
  {
  }

  lemma SettledFromPrevious(states: seq<State>, events: seq<Event>, j: nat, id: nat)
    requires Run(states, events) && j < |events|
    ensures RowSettled(states[j].jobs, id, states[j + 1].jobs)
    ensures PastSettled(states[j].past, id, states[j + 1].past)
  {
    RunKeepsInv(states, events, j);
    StepAt(states, events, |events|, j);
    NextSettlesRow(states[j], events[j], states[j + 1], id);
    NextSettlesPast(states[j], events[j], states[j + 1], id);
  }

  /** Terminal rows never change, and no row is moved, respecified or claimed again, over any run. */
  lemma {:induction false} RunSettles(states: seq<State>, events: seq<Event>, i: nat, j: nat, id: nat)
    requires Run(states, events) && i <= j < |states|
    ensures RowSettled(states[i].jobs, id, states[j].jobs)
    ensures PastSettled(states[i].past, id, states[j].past)
    decreases j
  {
    if i < j {
      RunSettles(states, events, i, j - 1, id);
      SettledFromPrevious(states, events, j - 1, id);
      SettledIsTransitive(states[i], states[j - 1], states[j], id);
    }
  }

  // -------------------------------------------------------------------- claims

  ghost predicate Accepted(states: seq<State>, events: seq<Event>, k: nat)
    requires |states| == |events| + 1
  {
    k < |events| && Respond(states[k].jobs, events[k]) == Ok
  }

  ghost predicate ClaimedAt(states: seq<State>, events: seq<Event>, k: nat, id: nat, daemon: nat, token: string)
    requires |states| == |events| + 1
  {
    && Accepted(states, events, k)
    && events[k].Claim? && events[k].id == id && events[k].daemon == daemon && events[k].token == token
  }

  lemma ClaimedOnce(states: seq<State>, events: seq<Event>, i: nat, j: nat)
    requires Run(states, events) && i < j < |events|
    requires events[i].Claim? && Accepted(states, events, i)
    requires events[j].Claim? && events[j].id == events[i].id
    ensures !Accepted(states, events, j)
  {
    var id := events[i].id;
    StepAt(states, events, |events|, i);
    RunSettles(states, events, i + 1, j, id);
    RunKeepsInv(states, events, j);
    assert id in states[i + 1].past.claims;
    assert Held(states[j], id);
  }

  lemma {:induction false} ClaimsHappened(states: seq<State>, events: seq<Event>, j: nat, id: nat)
    requires Run(states, events) && j < |states| && id in states[j].past.claims
    ensures exists k :: 0 <= k < j && ClaimedAt(states, events, k, id, states[j].past.claims[id].daemon, states[j].past.claims[id].token)
  {
    var s, e, s' := states[j - 1], events[j - 1], states[j];
    StepAt(states, events, |events|, j - 1);
    if s' != s && e.Claim? && e.id == id {
      assert ClaimedAt(states, events, j - 1, id, s'.past.claims[id].daemon, s'.past.claims[id].token);
    } else {
      ClaimsHappened(states, events, j - 1, id);
    }
  }

  /** Heartbeats, completions and failures are accepted only from the daemon of the row's one claim, with its token. */
  lemma OnlyTheClaimant(states: seq<State>, events: seq<Event>, j: nat)
    requires Run(states, events) && Accepted(states, events, j)
    requires events[j].Heartbeat? || events[j].Finish? || events[j].Fail?
    ensures exists k :: 0 <= k < j && ClaimedAt(states, events, k, events[j].id, events[j].daemon, events[j].token)
  {
    RunKeepsInv(states, events, j);
    assert Held(states[j], events[j].id);
    ClaimsHappened(states, events, j, events[j].id);
  }

  // -------------------------------------------------------------------- chains

  /** The rows of a submission from the first to `id`. */
  ghost function Chain(s: State, id: nat): (chain: seq<nat>)
    requires AllRooted(s) && AllSourced(s) && id in s.jobs
    ensures |chain| == s.past.place[id].index + 1
    decreases s.past.place[id].index
  {
    assert Sourced(s, id);
    if s.past.place[id].index == 0 then [id] else Chain(s, s.past.source[id]) + [id]
  }

  lemma {:induction false} ChainShape(s: State, id: nat, i: nat)
    requires AllRooted(s) && AllSourced(s) && id in s.jobs && i <= s.past.place[id].index
    ensures var row := Chain(s, id)[i];
            && row in s.jobs && s.past.place[row] == Place(s.past.place[id].origin, i)
            && s.jobs[row].spec == s.jobs[id].spec
            && (i < s.past.place[id].index ==> TimedOutRow(s.jobs, row))
    decreases s.past.place[id].index
  {
    assert Sourced(s, id) && Rooted(s, id);
    if i < s.past.place[id].index {
      var before := s.past.source[id];
      ChainShape(s, before, i);
      assert Rooted(s, before);
    }
  }

  ghost predicate SameChain(s: State, a: nat, b: nat) {
    a in s.past.place && b in s.past.place && s.past.place[a].origin == s.past.place[b].origin
  }

  /** Of two rows of one submission, the earlier one was failed by the reaper. */
  lemma EarlierIsTimedOut(s: State, a: nat, b: nat)
    requires Inv(s) && SameChain(s, a, b) && s.past.place[a].index < s.past.place[b].index
    ensures TimedOutRow(s.jobs, a)
  {
    ChainShape(s, b, s.past.place[a].index);
    var row := Chain(s, b)[s.past.place[a].index];
    assert s.past.place[row] == s.past.place[a];
  }

  /** At any point of any run at most one row of a submission is anything but failed by timeout. */
  lemma OneLivePerSubmission(states: seq<State>, events: seq<Event>, i: nat, a: nat, b: nat)
    requires Run(states, events) && i < |states| && SameChain(states[i], a, b)
    requires !TimedOutRow(states[i].jobs, a) && !TimedOutRow(states[i].jobs, b)
    ensures a == b
  {
    var s := states[i];
    RunKeepsInv(states, events, i);
    if s.past.place[a].index < s.past.place[b].index {
      EarlierIsTimedOut(s, a, b);
    } else if s.past.place[b].index < s.past.place[a].index {
      EarlierIsTimedOut(s, b, a);
    }
  }

  /** However often a submission is requeued, at most one of its rows is ever complete. */
  lemma OneCompletePerSubmission(states: seq<State>, events: seq<Event>, i: nat, j: nat, a: nat, b: nat)
    requires Run(states, events) && i <= j < |states|
    requires a in states[i].jobs && states[i].jobs[a].status == Complete
    requires b in states[j].jobs && states[j].jobs[b].status == Complete
    requires SameChain(states[j], a, b)
    ensures a == b
  {
    RunSettles(states, events, i, j, a);
    OneLivePerSubmission(states, events, j, a, b);
  }

  lemma {:induction false} Furthest(s: State, o: nat, rows: set<nat>) returns (last: nat)
    requires forall id :: id in rows ==> id in s.past.place
    requires exists id :: id in rows && s.past.place[id].origin == o
    ensures last in rows && s.past.place[last].origin == o
    ensures forall id :: id in rows && s.past.place[id].origin == o ==> s.past.place[id].index <= s.past.place[last].index
    decreases rows
  {
    last :| last in rows && s.past.place[last].origin == o;
    var rest := rows - {last};
    if exists id :: id in rest && s.past.place[id].origin == o {
      var other := Furthest(s, o, rest);
      if s.past.place[last].index < s.past.place[other].index {
        last := other;
      }
    }
  }

  /** A furthest row is not failed by the reaper: its copy would stand further. */
  lemma FurthestIsNotReaped(s: State, last: nat)
    requires AllSourced(s) && ReapedAreCopied(s) && last in s.past.place
    requires forall id :: SameChain(s, last, id) ==> s.past.place[id].index <= s.past.place[last].index
    ensures last !in s.past.reaped
  {
    if last in s.past.reaped {
      var c :| c in s.past.source && s.past.source[c] == last;
      assert Sourced(s, c);
      assert SameChain(s, last, c);
      assert false;
    }
  }

  /** All rows of a submission are in the chain that ends at its furthest row. */
  lemma ChainHasAll(s: State, last: nat, id: nat)
    requires AllRooted(s) && AllSourced(s) && OnePerPlace(s)
    requires SameChain(s, last, id) && s.past.place[id].index <= s.past.place[last].index
    ensures id in Chain(s, last)
  {
    var n := s.past.place[id].index;
    ChainShape(s, last, n);
    assert Chain(s, last)[n] == id;
  }

  /**
   No submission is lost: its rows form one chain, from the row it created to a row the
   reaper has not failed, and every row before that one is failed by timeout.
   */
  lemma SubmissionIsOneChain(states: seq<State>, events: seq<Event>, i: nat, k: nat) returns (last: nat)
    requires Run(states, events) && k < i < |states| && events[k].Create? && Accepted(states, events, k)
    ensures Inv(states[i]) && last in states[i].jobs && last !in states[i].past.reaped
    ensures Chain(states[i], last)[0] == events[k].id && states[i].jobs[last].spec == events[k].spec
    ensures forall id :: SameChain(states[i], last, id) ==> id in Chain(states[i], last)
    ensures forall n :: 0 <= n < |Chain(states[i], last)| - 1 ==> TimedOutRow(states[i].jobs, Chain(states[i], last)[n])
  {
    var s, o := states[i], events[k].id;
    RunKeepsInv(states, events, i);
    StepAt(states, events, |events|, k);
    RunSettles(states, events, k + 1, i, o);
    last := Furthest(s, o, s.past.place.Keys);
    FurthestIsNotReaped(s, last);
    ChainStart(s, last);
    forall id | SameChain(s, last, id) ensures id in Chain(s, last) {
      ChainHasAll(s, last, id);
    }
    forall n | 0 <= n < |Chain(s, last)| - 1 ensures TimedOutRow(s.jobs, Chain(s, last)[n]) {
      ChainShape(s, last, n);
    }
  }

  lemma ChainStart(s: State, id: nat)
    requires Inv(s) && id in s.jobs
    ensures Chain(s, id)[0] == s.past.place[id].origin
    ensures s.past.place[id].origin in s.jobs && s.jobs[id].spec == s.jobs[s.past.place[id].origin].spec
  {
    ChainShape(s, id, 0);
    assert Rooted(s, id);
    assert Rooted(s, Chain(s, id)[0]);
  }
}
