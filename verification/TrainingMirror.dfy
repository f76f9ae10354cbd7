/**
 `training_samples` as a mirror of the labelled samples. The mirror is brought up
 to date in background steps after a backfill (an upsert of the window) and after
 a delete (a clear and an upsert of the window); any requests may come between.
 No step but a backfill is skipped here, and renames may write the mirror.
 */
module TrainingMirror {
  import opened Wrappers
  import opened LabelStore
  import opened LabelRuns

  datatype Window = Window(start: int, end: int)

  /** The windows still to be synced after a backfill, and resynced after a delete, by label. */
  datatype Site = Site(world: World, syncs: map<nat, Window>, resyncs: map<nat, Window>)

  datatype Action =
    | Request(step: Step)
    | Sync(id: nat)
    | Resync(id: nat)

  /** Requests change the mirror only by renaming; label ids are never used again. */
  ghost predicate MayCome(m: Site, step: Step) {
    match step
    case RenameRoom(_, _, _, permitted) => permitted
    case AddLabel(id, _) => id !in m.syncs && id !in m.resyncs
    case Mirrored(_) => false
    case _ => true
  }

  ghost predicate Acts(m: Site, a: Action, m': Site) {
    match a
    case Request(step) =>
      && MayCome(m, step) && Takes(m.world, step, m'.world)
      && m'.syncs == (if step.Backfill? && step.done then m.syncs[step.id := WindowOf(m.world.pending[step.id])] else m.syncs)
      && m'.resyncs == (if step.RemoveLabel? then m.resyncs[step.id := WindowOfLabel(m.world.store.labels[step.id])]
                        else m.resyncs)
    case Sync(id) =>
      id in m.syncs && var win := m.syncs[id];
      m' == m.(world := WithMirror(m.world, Synced(m.world.store.training, m.world.store.csi, win.start, win.end)),
               syncs := m.syncs - {id})
    case Resync(id) =>
      id in m.resyncs && var win := m.resyncs[id];
      m' == m.(world := WithMirror(m.world, Synced(Cleared(m.world.store.training, win.start, win.end),
                                                   m.world.store.csi, win.start, win.end)),
               resyncs := m.resyncs - {id})
  }

  function WithMirror(w: World, training: Mirror): World {
    w.(store := w.store.(training := training))
  }

  function WindowOf(task: Task): Window {
    Window(task.start, task.end)
  }

  function WindowOfLabel(l: Label): Window {
    Window(l.start, l.end)
  }

  // ------------------------------------------------------------------ invariant

  predicate Within(win: Window, k: Key) {
    win.start <= k.time < win.end
  }

  ghost predicate PendingIn(windows: map<nat, Window>, k: Key) {
    exists id :: id in windows && Within(windows[id], k)
  }

  /** The mirror shows the sample as the painting does. */
  predicate InStep(s: Store, k: Key)
    requires k in s.csi
  {
    if s.csi[k].Some? then k in s.training && s.training[k] == s.csi[k].value else k !in s.training
  }

  /** The mirror is right about the sample, or a pending step will put it right. */
  ghost predicate Accounted(m: Site, k: Key)
    requires k in m.world.store.csi
  {
    || InStep(m.world.store, k)
    || PendingIn(m.resyncs, k)
    || (m.world.store.csi[k].Some? && PendingIn(m.syncs, k))
  }

  ghost predicate AllAccounted(m: Site) {
    && m.world.store.training.Keys <= m.world.store.csi.Keys
    && forall k :: k in m.world.store.csi ==> Accounted(m, k)
  }

  lemma PendingInMore(windows: map<nat, Window>, id: nat, win: Window, k: Key)
    requires id !in windows
    ensures PendingIn(windows[id := win], k) <==> PendingIn(windows, k) || Within(win, k)
  {
    if PendingIn(windows, k) {
      var other :| other in windows && Within(windows[other], k);
      assert windows[id := win][other] == windows[other];
    }
    if Within(win, k) {
      assert windows[id := win][id] == win;
    }
  }

  lemma PendingInLess(windows: map<nat, Window>, id: nat, k: Key)
    requires id in windows && PendingIn(windows, k) && !Within(windows[id], k)
    ensures PendingIn(windows - {id}, k)
  {
    var other :| other in windows && Within(windows[other], k);
    assert other in windows - {id};
  }

  /** Ids of labels, of their backfills and of their pending windows do not clash. */
  ghost predicate Keyed(m: Site) {
    && (forall id :: id in m.syncs ==> id !in m.world.pending)
    && (forall id :: id in m.resyncs ==> id !in m.world.store.labels)
  }

  // ---------------------------------------------------------------- preservation

  lemma BackfillAccounts(m: Site, id: nat, m': Site, k: Key)
    requires AllAccounted(m) && Keyed(m) && Acts(m, Request(Backfill(id, true)), m') && k in m'.world.store.csi
    ensures Accounted(m', k)
  {
    assert Accounted(m, k);
    PendingInMore(m.syncs, id, WindowOf(m.world.pending[id]), k);
  }

  lemma DeleteAccounts(m: Site, id: nat, m': Site, k: Key)
    requires AllAccounted(m) && Keyed(m) && Acts(m, Request(RemoveLabel(id)), m') && k in m'.world.store.csi
    ensures Accounted(m', k)
  {
    assert Accounted(m, k);
    PendingInMore(m.resyncs, id, WindowOfLabel(m.world.store.labels[id]), k);
  }

  lemma RequestAccounts(m: Site, step: Step, m': Site, k: Key)
    requires AllAccounted(m) && Keyed(m) && Acts(m, Request(step), m') && k in m'.world.store.csi
    requires !step.RemoveLabel? && !(step.Backfill? && step.done)
    ensures Accounted(m', k)
  {
    if !step.Insert? || k != step.k {
      assert Accounted(m, k);
    }
  }

  lemma SyncAccounts(m: Site, id: nat, m': Site, k: Key)
    requires AllAccounted(m) && Acts(m, Sync(id), m') && k in m'.world.store.csi
    ensures Accounted(m', k)
  {
    assert Accounted(m, k);
    if PendingIn(m.syncs, k) && !Within(m.syncs[id], k) {
      PendingInLess(m.syncs, id, k);
    }
  }

  lemma ResyncAccounts(m: Site, id: nat, m': Site, k: Key)
    requires AllAccounted(m) && Acts(m, Resync(id), m') && k in m'.world.store.csi
    ensures Accounted(m', k)
  {
    assert Accounted(m, k);
    if PendingIn(m.resyncs, k) && !Within(m.resyncs[id], k) {
      PendingInLess(m.resyncs, id, k);
    }
  }

  lemma ActionKeepsKeys(m: Site, a: Action, m': Site)
    requires AllAccounted(m) && Keyed(m) && Acts(m, a, m')
    ensures Keyed(m') && m'.world.store.training.Keys <= m'.world.store.csi.Keys
  {
  }

  lemma ActionKeepsAccounted(m: Site, a: Action, m': Site)
    requires AllAccounted(m) && Keyed(m) && Acts(m, a, m')
    ensures AllAccounted(m') && Keyed(m')
  {
    ActionKeepsKeys(m, a, m');
    forall k | k in m'.world.store.csi ensures Accounted(m', k) {
      match a
      case Sync(id) => SyncAccounts(m, id, m', k);
      case Resync(id) => ResyncAccounts(m, id, m', k);
      case Request(step) =>
        if step.RemoveLabel? {
          DeleteAccounts(m, step.id, m', k);
        } else if step.Backfill? && step.done {
          BackfillAccounts(m, step.id, m', k);
        } else {
          RequestAccounts(m, step, m', k);
        }
    }
  }

  // ------------------------------------------------------------------------ runs

  const BARE := Site(BLANK, map[], map[])

  ghost predicate Run(sites: seq<Site>, actions: seq<Action>, n: nat)
    requires |sites| == |actions| + 1 && n <= |actions|
  {
    if n == 0 then sites[0] == BARE
    else Run(sites, actions, n - 1) && Acts(sites[n - 1], actions[n - 1], sites[n])
  }

  lemma {:induction false} RunKeepsAccounted(sites: seq<Site>, actions: seq<Action>, n: nat)
    requires |sites| == |actions| + 1 && n <= |actions| && Run(sites, actions, n)
    ensures AllAccounted(sites[n]) && Keyed(sites[n])
  {
    if n > 0 {
      RunKeepsAccounted(sites, actions, n - 1);
      ActionKeepsAccounted(sites[n - 1], actions[n - 1], sites[n]);
    }
  }

  /** Whenever no sync and no resync is pending, the mirror is exactly the labelled samples. */
  lemma MirrorIsExact(sites: seq<Site>, actions: seq<Action>, n: nat)
    requires |sites| == |actions| + 1 && n <= |actions| && Run(sites, actions, n)
    requires sites[n].syncs == map[] && sites[n].resyncs == map[]
    ensures var s := sites[n].world.store;
            s.training == map k | k in s.csi && s.csi[k].Some? :: s.csi[k].value
  {
    RunKeepsAccounted(sites, actions, n);
    var m := sites[n];
    forall k | k in m.world.store.csi ensures InStep(m.world.store, k) {
      assert Accounted(m, k);
    }
  }
}
