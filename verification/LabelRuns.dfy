/**
 Runs of the label and room handlers interleaved with background backfills and
 inserted samples. The painting is sound when every labelled sample carries the
 room of a label that covers it. A backfill paints what its label said when it
 was created, so it is sound exactly when that is still covered.
 */
module LabelRuns {
  import opened Wrappers
  import opened LabelStore

  /** A pending backfill, with the values captured from the request. */
  datatype Task = Task(start: int, end: int, room: string)

  /** The tables and the pending backfill of each label that has one. */
  datatype World = World(store: Store, pending: map<nat, Task>)

  datatype Step =
    | AddRoom(name: string, floor: int)
    | RenameRoom(name: string, newName: string, floor: int, permitted: bool)
    | RemoveRoom(name: string)
    | AddLabel(id: nat, l: Label)
    | RemoveLabel(id: nat)
    | Backfill(id: nat, done: bool)
    | Insert(k: Key)
    | Mirrored(training: Mirror)
    | Refused

  ghost predicate Takes(w: World, step: Step, w': World) {
    match step
    case AddRoom(name, floor) =>
      name !in w.store.rooms && w' == w.(store := w.store.(rooms := w.store.rooms[name := floor]))
    case RenameRoom(name, newName, floor, permitted) =>
      && name in w.store.rooms && newName !in w.store.rooms
      && w' == w.(store := Renamed(w.store, name, newName, floor, permitted))
    case RemoveRoom(name) =>
      && (forall id :: id in w.store.labels ==> w.store.labels[id].room != name)
      && w' == w.(store := w.store.(rooms := w.store.rooms - {name}))
    case AddLabel(id, l) =>
      && id !in w.store.labels && id !in w.pending
      && l.start < l.end && l.room in w.store.rooms
      && LabelAdded(w.store, id, l, w'.store)
      && w'.pending == w.pending[id := Task(l.start, l.end, l.room)]
    case RemoveLabel(id) =>
      id in w.store.labels && LabelDeleted(w.store, id, w'.store) && w'.pending == w.pending
    case Backfill(id, done) =>
      && id in w.pending
      && w' == World(if done then w.store.(csi := Painted(w.store.csi, w.pending[id])) else w.store, w.pending - {id})
    case Insert(k) =>
      k !in w.store.csi && w' == w.(store := w.store.(csi := w.store.csi[k := None]))
    case Mirrored(training) => w' == w.(store := w.store.(training := training))
    case Refused => w' == w
  }

  function Painted(csi: Painting, task: Task): Painting {
    Paint(csi, task.start, task.end, Some(task.room))
  }

  // ------------------------------------------------------------------ soundness

  ghost predicate Covered(labels: Labels, time: int, room: string) {
    exists id :: id in labels && labels[id].room == room && Covers(labels[id], time)
  }

  ghost predicate Sound(labels: Labels, csi: Painting) {
    forall k :: k in csi && csi[k].Some? ==> Covered(labels, k.time, csi[k].value)
  }

  /** The foreign key of labels to rooms. */
  ghost predicate RoomsExist(s: Store) {
    forall id :: id in s.labels ==> s.labels[id].room in s.rooms
  }

  ghost predicate WindowCovered(labels: Labels, task: Task) {
    forall t :: task.start <= t < task.end ==> Covered(labels, t, task.room)
  }

  ghost predicate KeepsEverySampleTableSound(labels: Labels, task: Task) {
    forall csi :: Sound(labels, csi) ==> Sound(labels, Painted(csi, task))
  }

  /** A backfill is harmless, whatever the samples, exactly when its room still covers its whole window. */
  lemma BackfillSoundIff(labels: Labels, task: Task)
    ensures KeepsEverySampleTableSound(labels, task) <==> WindowCovered(labels, task)
  {
    if KeepsEverySampleTableSound(labels, task) {
      forall t | task.start <= t < task.end ensures Covered(labels, t, task.room) {
        var csi := map[Key(t, 0) := None];
        assert Sound(labels, csi);
        assert Painted(csi, task)[Key(t, 0)] == Some(task.room);
      }
    }
  }

  ghost predicate Good(w: World) {
    Sound(w.store.labels, w.store.csi) && RoomsExist(w.store)
  }

  lemma LabelAddedKeepsSound(s: Store, id: nat, l: Label, s': Store)
    requires Sound(s.labels, s.csi) && id !in s.labels && LabelAdded(s, id, l, s')
    ensures Sound(s'.labels, s'.csi)
  {
    forall k | k in s.csi && s.csi[k].Some? ensures Covered(s'.labels, k.time, s.csi[k].value) {
      var other :| other in s.labels && s.labels[other].room == s.csi[k].value && Covers(s.labels[other], k.time);
      assert s'.labels[other] == s.labels[other];
    }
  }

  lemma LabelDeletedKeepsSound(s: Store, id: nat, s': Store)
    requires Sound(s.labels, s.csi) && id in s.labels && LabelDeleted(s, id, s')
    ensures Sound(s'.labels, s'.csi)
  {
    forall k | k in s'.csi && s'.csi[k].Some? ensures Covered(s'.labels, k.time, s'.csi[k].value) {
      if Covers(s.labels[id], k.time) {
        assert Shows(s'.labels, k.time, s'.csi[k]);
      } else {
        assert s'.csi[k] == s.csi[k];
        var other :| other in s.labels && s.labels[other].room == s.csi[k].value && Covers(s.labels[other], k.time);
        assert s'.labels[other] == s.labels[other];
      }
    }
  }

  lemma RenamedKeepsSound(s: Store, name: string, newName: string, floor: int, permitted: bool)
    requires Sound(s.labels, s.csi)
    ensures Sound(RenamedLabels(s.labels, name, newName), RenamedPainting(s.csi, name, newName))
  {
    var labels', csi' := RenamedLabels(s.labels, name, newName), RenamedPainting(s.csi, name, newName);
    forall k | k in csi' && csi'[k].Some? ensures Covered(labels', k.time, csi'[k].value) {
      var other :| other in s.labels && s.labels[other].room == s.csi[k].value && Covers(s.labels[other], k.time);
      assert labels'[other].room == csi'[k].value && Covers(labels'[other], k.time);
    }
  }

  /** No step spoils a sound painting but a backfill whose window is not covered any more. */
  lemma StepKeepsGood(w: World, step: Step, w': World)
    requires Good(w) && Takes(w, step, w')
    requires step.Backfill? && step.done ==> WindowCovered(w.store.labels, w.pending[step.id])
    ensures Good(w')
  {
    match step
    case AddLabel(id, l) => LabelAddedKeepsSound(w.store, id, l, w'.store);
    case RemoveLabel(id) => LabelDeletedKeepsSound(w.store, id, w'.store);
    case RenameRoom(name, newName, floor, permitted) => RenamedKeepsSound(w.store, name, newName, floor, permitted);
    case _ =>
  }

  /** Renaming a room never merges its samples with those of another room. */
  lemma RenameNeverMerges(w: World, step: Step, w': World, k: Key)
    requires Good(w) && step.RenameRoom? && Takes(w, step, w') && k in w.store.csi
    ensures w'.store.csi[k] == Some(step.newName) <==> w.store.csi[k] == Some(step.name)
  {
    if w.store.csi[k].Some? {
      assert Covered(w.store.labels, k.time, w.store.csi[k].value);
    }
  }

  // ----------------------------------------------------------------------- runs

  const BLANK := World(Store(map[], map[], map[], map[]), map[])

  ghost predicate Run(worlds: seq<World>, steps: seq<Step>) {
    |worlds| == |steps| + 1 && worlds[0] == BLANK && TakesAll(worlds, steps, |steps|)
  }

  ghost predicate TakesAll(worlds: seq<World>, steps: seq<Step>, n: nat)
    requires |worlds| == |steps| + 1 && n <= |steps|
  {
    n > 0 ==> TakesAll(worlds, steps, n - 1) && Takes(worlds[n - 1], steps[n - 1], worlds[n])
  }

  /** Every backfill that paints finds its window covered. */
  ghost predicate BackfillsCovered(worlds: seq<World>, steps: seq<Step>)
    requires |worlds| == |steps| + 1
  {
    forall i :: 0 <= i < |steps| && steps[i].Backfill? && steps[i].done && steps[i].id in worlds[i].pending ==>
      WindowCovered(worlds[i].store.labels, worlds[i].pending[steps[i].id])
  }

  lemma {:induction false} CoveredRunIsGood(worlds: seq<World>, steps: seq<Step>, i: nat)
    requires |worlds| == |steps| + 1 && worlds[0] == BLANK && i <= |steps| && TakesAll(worlds, steps, i)
    requires BackfillsCovered(worlds, steps)
    ensures Good(worlds[i])
  {
    if i > 0 {
      CoveredRunIsGood(worlds, steps, i - 1);
      StepKeepsGood(worlds[i - 1], steps[i - 1], worlds[i]);
    }
  }

  /** The order a client can keep: no label is deleted, and no room renamed, while a backfill for it is pending. */
  ghost predicate Settled(w: World, step: Step) {
    && (step.RemoveLabel? ==> step.id !in w.pending)
    && (step.RenameRoom? ==> forall id :: id in w.pending ==> w.pending[id].room != step.name)
  }

  ghost predicate AllSettled(worlds: seq<World>, steps: seq<Step>)
    requires |worlds| == |steps| + 1
  {
    forall i :: 0 <= i < |steps| ==> Settled(worlds[i], steps[i])
  }

  /** Every pending backfill still says what its label says. */
  ghost predicate UpToDate(w: World) {
    forall id :: id in w.pending ==>
      && id in w.store.labels
      && w.pending[id] == Task(w.store.labels[id].start, w.store.labels[id].end, w.store.labels[id].room)
  }

  lemma SettledStepKeepsUpToDate(w: World, step: Step, w': World)
    requires UpToDate(w) && Takes(w, step, w') && Settled(w, step)
    ensures UpToDate(w')
  {
  }

  lemma UpToDateIsCovered(w: World, id: nat)
    requires UpToDate(w) && id in w.pending
    ensures WindowCovered(w.store.labels, w.pending[id])
  {
    forall t | w.pending[id].start <= t < w.pending[id].end ensures Covered(w.store.labels, t, w.pending[id].room) {
      assert Covers(w.store.labels[id], t);
    }
  }

  lemma {:induction false} SettledRunIsGood(worlds: seq<World>, steps: seq<Step>, i: nat)
    requires |worlds| == |steps| + 1 && worlds[0] == BLANK && i <= |steps| && TakesAll(worlds, steps, i)
    requires AllSettled(worlds, steps)
    ensures Good(worlds[i]) && UpToDate(worlds[i])
  {
    if i > 0 {
      var w, step := worlds[i - 1], steps[i - 1];
      SettledRunIsGood(worlds, steps, i - 1);
      if step.Backfill? {
        UpToDateIsCovered(w, step.id);
      }
      StepKeepsGood(w, step, worlds[i]);
      SettledStepKeepsUpToDate(w, step, worlds[i]);
    }
  }

  /**
   In a settled run every labelled sample always carries the room of a surviving
   label that covers its time.
   */
  lemma SettledRunIsSound(worlds: seq<World>, steps: seq<Step>, i: nat, k: Key)
    requires Run(worlds, steps) && AllSettled(worlds, steps) && i < |worlds|
    requires k in worlds[i].store.csi && worlds[i].store.csi[k].Some?
    ensures exists id :: id in worlds[i].store.labels && Covers(worlds[i].store.labels[id], k.time)
                         && worlds[i].store.labels[id].room == worlds[i].store.csi[k].value
  {
    TakesUpTo(worlds, steps, |steps|, i);
    SettledRunIsGood(worlds, steps, i);
    assert Covered(worlds[i].store.labels, k.time, worlds[i].store.csi[k].value);
  }

  lemma {:induction false} TakesUpTo(worlds: seq<World>, steps: seq<Step>, n: nat, i: nat)
    requires |worlds| == |steps| + 1 && i <= n <= |steps| && TakesAll(worlds, steps, n)
    ensures TakesAll(worlds, steps, i)
  {
    if i < n {
      TakesUpTo(worlds, steps, n - 1, i);
    }
  }

  /** Without that order the claim is false: any label deleted before its backfill leaves its room on a sample it covered. */
  lemma LateBackfillIsUnsound(id: nat, l: Label, k: Key) returns (worlds: seq<World>, steps: seq<Step>)
    requires Covers(l, k.time)
    ensures Run(worlds, steps) && !Good(worlds[|steps|])
  {
    var task := Task(l.start, l.end, l.room);
    var w1 := World(Store(map[l.room := 0], map[], map[], map[]), map[]);
    var w2 := World(w1.store.(labels := map[id := l]), map[id := task]);
    var w3 := w2.(store := w2.store.(csi := map[k := None]));
    var w4 := w3.(store := w3.store.(labels := map[]));
    var w5 := World(w4.store.(csi := map[k := Some(l.room)]), map[]);
    steps := [AddRoom(l.room, 0), AddLabel(id, l), Insert(k), RemoveLabel(id), Backfill(id, true)];
    worlds := [BLANK, w1, w2, w3, w4, w5];
    OnlyLabelRemoved(w3, id, w4);
    LateBackfillPaints(w4, id, k, w5);
    assert TakesAll(worlds, steps, 1);
    assert TakesAll(worlds, steps, 3);
    assert TakesAll(worlds, steps, 5);
    assert w5.store.csi[k].Some?;
  }

  lemma OnlyLabelRemoved(w: World, id: nat, w': World)
    requires w.store.labels.Keys == {id} && forall k :: k in w.store.csi ==> w.store.csi[k].None?
    requires w' == w.(store := w.store.(labels := map[]))
    ensures Takes(w, RemoveLabel(id), w')
  {
    assert w.store.labels - {id} == map[];
  }

  lemma LateBackfillPaints(w: World, id: nat, k: Key, w': World)
    requires w.pending.Keys == {id} && w.store.csi.Keys == {k}
    requires w.pending[id].start <= k.time < w.pending[id].end
    requires w' == World(w.store.(csi := map[k := Some(w.pending[id].room)]), map[])
    ensures Takes(w, Backfill(id, true), w')
  {
    assert w.pending - {id} == map[];
    assert Painted(w.store.csi, w.pending[id]) == w'.store.csi;
  }
}
