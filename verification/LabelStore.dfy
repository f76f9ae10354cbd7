/**
 Labels, rooms and the samples they paint. A label is a half-open interval of
 time in a room; `csi_samples.label` is a painting of the labels over the
 samples, and `training_samples` mirrors the labelled part of the painting.
 */
module LabelStore {
  import opened Wrappers

  /** A sample; at most one per receiver and time. */
  datatype Key = Key(time: int, receiver: nat)

  datatype Label = Label(start: int, end: int, room: string, createdAt: int)

  type Labels = map<nat, Label>
  type Painting = map<Key, Option<string>>
  type Mirror = map<Key, string>

  /** The tables. `rooms` maps each room's name to its floor. */
  datatype Store = Store(rooms: map<string, int>, labels: Labels, csi: Painting, training: Mirror)

  datatype Answer = Ok | NotFound | Conflict | Unprocessable | Unavailable

  predicate Covers(l: Label, time: int) {
    l.start <= time < l.end
  }

  predicate Overlaps(l: Label, start: int, end: int) {
    l.start < end && l.end > start
  }

  /** The order in which labels are repainted: by start, then creation time, then id. */
  predicate Before(labels: Labels, a: nat, b: nat)
    requires a in labels && b in labels
  {
    || labels[a].start < labels[b].start
    || (labels[a].start == labels[b].start && labels[a].createdAt < labels[b].createdAt)
    || (labels[a].start == labels[b].start && labels[a].createdAt == labels[b].createdAt && a < b)
  }

  // --------------------------------------------------- what a sample should show

  /** The last label, in repainting order, among those that cover the time. */
  ghost predicate Topmost(labels: Labels, time: int, id: nat) {
    && id in labels && Covers(labels[id], time)
    && forall other :: other in labels && other != id && Covers(labels[other], time) ==> Before(labels, other, id)
  }

  ghost predicate Shows(labels: Labels, time: int, shown: Option<string>) {
    match shown
    case None => forall id :: id in labels ==> !Covers(labels[id], time)
    case Some(room) => exists id :: Topmost(labels, time, id) && labels[id].room == room
  }

  /** In numbers: the covering label with the latest start, among equals the latest creation, then the greatest id. */
  ghost predicate GreatestCovering(labels: Labels, time: int, id: nat) {
    && id in labels && labels[id].start <= time < labels[id].end
    && forall other :: other in labels && other != id && labels[other].start <= time < labels[other].end ==>
         || labels[other].start < labels[id].start
         || (labels[other].start == labels[id].start && labels[other].createdAt < labels[id].createdAt)
         || (labels[other].start == labels[id].start && labels[other].createdAt == labels[id].createdAt && other < id)
  }

  lemma ShowsGreatestCovering(labels: Labels, time: int, room: string)
    ensures Shows(labels, time, Some(room)) <==> exists id :: GreatestCovering(labels, time, id) && labels[id].room == room
    ensures Shows(labels, time, None) <==> forall id :: id in labels ==> time < labels[id].start || labels[id].end <= time
  {
    if id :| GreatestCovering(labels, time, id) && labels[id].room == room {
      assert Topmost(labels, time, id);
    }
    if id :| Topmost(labels, time, id) && labels[id].room == room {
      assert GreatestCovering(labels, time, id);
    }
  }

  /** Inside the window every sample shows its topmost label, outside it is as before. */
  ghost predicate Repainted(csi: Painting, start: int, end: int, labels: Labels, csi': Painting) {
    && csi'.Keys == csi.Keys
    && forall k :: k in csi ==>
         if start <= k.time < end then Shows(labels, k.time, csi'[k]) else csi'[k] == csi[k]
  }

  /** At most one painting fits. */
  lemma RepaintingIsUnique(csi: Painting, start: int, end: int, labels: Labels, one: Painting, two: Painting)
    requires Repainted(csi, start, end, labels, one) && Repainted(csi, start, end, labels, two)
    ensures one == two
  {
    forall k | k in csi ensures one[k] == two[k] {
      if start <= k.time < end {
        assert Shows(labels, k.time, one[k]) && Shows(labels, k.time, two[k]);
      }
    }
  }

  // ------------------------------------------------------------- SQL statements

  /** UPDATE csi_samples SET label = ... in a window. */
  function Paint(csi: Painting, start: int, end: int, shown: Option<string>): Painting {
    map k | k in csi :: if start <= k.time < end then shown else csi[k]
  }

  /** The upsert of the labelled samples of a window into the mirror. */
  function Synced(training: Mirror, csi: Painting, start: int, end: int): Mirror {
    training + map k | k in csi && start <= k.time < end && csi[k].Some? :: csi[k].value
  }

  function Cleared(training: Mirror, start: int, end: int): Mirror {
    map k | k in training && !(start <= k.time < end) :: training[k]
  }

  function RenamedLabels(labels: Labels, old_: string, new_: string): Labels {
    map id | id in labels :: if labels[id].room == old_ then labels[id].(room := new_) else labels[id]
  }

  function RenamedPainting(csi: Painting, old_: string, new_: string): Painting {
    map k | k in csi :: if csi[k] == Some(old_) then Some(new_) else csi[k]
  }

  function RenamedMirror(training: Mirror, old_: string, new_: string): Mirror {
    map k | k in training :: if training[k] == old_ then new_ else training[k]
  }

  /** The rows of the ordered query for the labels that overlap a window. */
  ghost predicate QueryAnswer(labels: Labels, start: int, end: int, ids: seq<nat>) {
    && (forall i :: 0 <= i < |ids| ==> ids[i] in labels && Overlaps(labels[ids[i]], start, end))
    && (forall id :: id in labels && Overlaps(labels[id], start, end) ==> id in ids)
    && (forall i, j :: 0 <= i < j < |ids| ==> Before(labels, ids[i], ids[j]))
  }

  ghost predicate First(labels: Labels, ids: set<nat>, id: nat)
    requires ids <= labels.Keys
  {
    id in ids && forall other :: other in ids && other != id ==> Before(labels, id, other)
  }

  lemma {:induction false} FirstExists(labels: Labels, ids: set<nat>) returns (first: nat)
    requires ids != {} && ids <= labels.Keys
    ensures First(labels, ids, first)
    decreases ids
  {
    first :| first in ids;
    if ids != {first} {
      var one := first;
      var id := FirstExists(labels, ids - {one});
      first := if Before(labels, one, id) then one else id;
      forall other | other in ids && other != first ensures Before(labels, first, other) {
        if other != one && other != id {
          assert Before(labels, id, other);
        }
      }
    }
  }

  method QueryOverlapping(labels: Labels, start: int, end: int) returns (ids: seq<nat>)
    ensures QueryAnswer(labels, start, end, ids)
  {
    var rest := set id | id in labels && Overlaps(labels[id], start, end);
    ids := [];
    while rest != {}
      invariant rest <= labels.Keys
      invariant forall i :: 0 <= i < |ids| ==> ids[i] in labels && Overlaps(labels[ids[i]], start, end)
      invariant forall id :: id in rest ==> Overlaps(labels[id], start, end)
      invariant forall id :: id in labels && Overlaps(labels[id], start, end) ==> id in ids || id in rest
      invariant forall i, id :: 0 <= i < |ids| && id in rest ==> Before(labels, ids[i], id)
      invariant forall i, j :: 0 <= i < j < |ids| ==> Before(labels, ids[i], ids[j])
      decreases rest
    {
      ghost var least := FirstExists(labels, rest);
      var first :| first in rest && forall other :: other in rest && other != first ==> Before(labels, first, other);
      ids := ids + [first];
      rest := rest - {first};
    }
  }

  // ------------------------------------------------------------ repainting a window

  /** What the first `n` repaints leave at a time of the cleared window. */
  ghost function LastPaint(labels: Labels, ids: seq<nat>, n: nat, time: int): Option<string>
    requires n <= |ids| && forall i :: 0 <= i < |ids| ==> ids[i] in labels
  {
    if n == 0 then None
    else if Covers(labels[ids[n - 1]], time) then Some(labels[ids[n - 1]].room)
    else LastPaint(labels, ids, n - 1, time)
  }

  lemma {:induction false} LastPaintIsLast(labels: Labels, ids: seq<nat>, n: nat, time: int) returns (m: int)
    requires n <= |ids| && forall i :: 0 <= i < |ids| ==> ids[i] in labels
    ensures -1 <= m < n && forall i :: m < i < n ==> !Covers(labels[ids[i]], time)
    ensures if m < 0 then LastPaint(labels, ids, n, time) == None
            else Covers(labels[ids[m]], time) && LastPaint(labels, ids, n, time) == Some(labels[ids[m]].room)
  {
    if n == 0 {
      m := -1;
    } else if Covers(labels[ids[n - 1]], time) {
      m := n - 1;
    } else {
      m := LastPaintIsLast(labels, ids, n - 1, time);
    }
  }

  /** Repainting in query order leaves the topmost label. */
  lemma LastPaintShows(labels: Labels, ids: seq<nat>, start: int, end: int, time: int)
    requires QueryAnswer(labels, start, end, ids) && start <= time < end
    ensures Shows(labels, time, LastPaint(labels, ids, |ids|, time))
  {
    var m := LastPaintIsLast(labels, ids, |ids|, time);
    forall id | id in labels && Covers(labels[id], time)
      ensures m >= 0 && (id == ids[m] || Before(labels, id, ids[m]))
    {
      assert Overlaps(labels[id], start, end);
      var i :| 0 <= i < |ids| && ids[i] == id;
    }
    if m >= 0 {
      assert Topmost(labels, time, ids[m]);
    }
  }

  ghost predicate RepaintedUpTo(csi: Painting, start: int, end: int, labels: Labels, ids: seq<nat>, n: nat, csi': Painting)
    requires n <= |ids| && forall i :: 0 <= i < |ids| ==> ids[i] in labels
  {
    && csi'.Keys == csi.Keys
    && forall k :: k in csi ==>
         csi'[k] == if start <= k.time < end then LastPaint(labels, ids, n, k.time) else csi[k]
  }

  lemma RepaintedByAll(csi: Painting, start: int, end: int, labels: Labels, ids: seq<nat>, csi': Painting)
    requires QueryAnswer(labels, start, end, ids) && RepaintedUpTo(csi, start, end, labels, ids, |ids|, csi')
    ensures Repainted(csi, start, end, labels, csi')
  {
    forall k | k in csi && start <= k.time < end ensures Shows(labels, k.time, csi'[k]) {
      LastPaintShows(labels, ids, start, end, k.time);
    }
  }

  /** One repaint: the label's interval, clipped to the window. */
  function Repaint(csi: Painting, start: int, end: int, l: Label): Painting {
    Paint(csi, Max(start, l.start), Min(end, l.end), Some(l.room))
  }

  function Max(a: int, b: int): int {
    if a >= b then a else b
  }

  function Min(a: int, b: int): int {
    if a <= b then a else b
  }

  // --------------------------------------------------------- effects of the handlers

  ghost predicate LabelAdded(s: Store, id: nat, l: Label, s': Store) {
    s' == s.(labels := s.labels[id := l])
  }

  ghost predicate LabelDeleted(s: Store, id: nat, s': Store)
    requires id in s.labels
  {
    && s' == s.(labels := s.labels - {id}, csi := s'.csi)
    && Repainted(s.csi, s.labels[id].start, s.labels[id].end, s'.labels, s'.csi)
  }

  /** The rename cascades to the labels and is carried to samples and, when permitted, to the mirror. */
  function Renamed(s: Store, old_: string, new_: string, floor: int, permitted: bool): Store {
    Store((s.rooms - {old_})[new_ := floor], RenamedLabels(s.labels, old_, new_),
          RenamedPainting(s.csi, old_, new_),
          if permitted then RenamedMirror(s.training, old_, new_) else s.training)
  }

  function OrElse<T>(o: Option<T>, default_: T): T {
    if o.Some? then o.value else default_
  }

  // ------------------------------------------------------------------- handlers

  /** The database behind the label and room handlers. */
  class Freki {
    var rooms: map<string, int>
    var labels: Labels
    var csi: Painting
    var training: Mirror

    ghost function View(): Store
      reads this
    {
      Store(rooms, labels, csi, training)
    }

    constructor ()
      ensures View() == Store(map[], map[], map[], map[])
    {
      rooms, labels, csi, training := map[], map[], map[], map[];
    }

    /** Inserts the label only; painting its window is a background task. */
    method CreateLabel(id: nat, start: int, end: int, room: string, createdAt: int) returns (answer: Answer)
      requires id !in labels
      modifies this
      ensures answer == if room != "" && start < end && room in old(rooms) then Ok else Unprocessable
      ensures answer == Ok ==> LabelAdded(old(View()), id, Label(start, end, room, createdAt), View())
      ensures answer != Ok ==> View() == old(View())
    {
      if room == "" || end <= start {
        return Unprocessable;
      }
      // the foreign key
      if room !in rooms {
        return Unprocessable;
      }
      labels := labels[id := Label(start, end, room, createdAt)];
      return Ok;
    }

    /** The first background step of a new label. */
    method BackfillCsiSamples(start: int, end: int, room: string, dbError: bool) returns (done: bool)
      modifies this`csi
      ensures done == !dbError
      ensures csi == if done then Paint(old(csi), start, end, Some(room)) else old(csi)
    {
      if dbError {
        return false;
      }
      csi := map k | k in csi :: if start <= k.time && k.time < end then Some(room) else csi[k];
      return true;
    }

    /** The second background step of a new label, taken when the first was done. */
    method SyncTrainingSamples(start: int, end: int)
      modifies this`training
      ensures training == Synced(old(training), csi, start, end)
    {
      training := training + map k | k in csi && k.time >= start && k.time < end && csi[k] != None :: csi[k].value;
    }

    /** The step after a delete. */
    method ResyncTrainingSamples(start: int, end: int)
      modifies this`training
      ensures training == Synced(Cleared(old(training), start, end), csi, start, end)
    {
      training := map k | k in training && (k.time < start || k.time >= end) :: training[k];
      assert training == Cleared(old(training), start, end);
      SyncTrainingSamples(start, end);
    }

    /**
     `failsAt` is the statement of the transaction that raises a database error, if
     one does: clear, delete, query, the repaints in turn, commit.
     */
    method DeleteLabel(id: nat, failsAt: Option<nat>) returns (answer: Answer)
      modifies this
      ensures answer == NotFound <==> id !in old(labels)
      ensures answer in {Ok, NotFound, Unavailable} && (failsAt == None ==> answer != Unavailable)
      ensures id in old(labels) && failsAt.Some? && failsAt.value <= 3 ==> answer == Unavailable
      ensures answer == Ok ==> LabelDeleted(old(View()), id, View())
      ensures answer != Ok ==> View() == old(View())
    {
      if id !in labels {
        return NotFound;
      }
      var windowStart, windowEnd := labels[id].start, labels[id].end;
      var savedLabels, savedCsi := labels, csi;
      csi := Paint(csi, windowStart, windowEnd, None);
      labels := labels - {id};
      var overlapping := QueryOverlapping(labels, windowStart, windowEnd);
      if failsAt.Some? && failsAt.value < 3 {
        labels, csi := savedLabels, savedCsi;
        return Unavailable;
      }
      for n := 0 to |overlapping|
        invariant labels == savedLabels - {id} && rooms == old(rooms) && training == old(training)
        invariant failsAt.Some? ==> failsAt.value >= n + 3
        invariant RepaintedUpTo(savedCsi, windowStart, windowEnd, labels, overlapping, n, csi)
      {
        if failsAt == Some(n + 3) {
          labels, csi := savedLabels, savedCsi;
          return Unavailable;
        }
        csi := Repaint(csi, windowStart, windowEnd, labels[overlapping[n]]);
      }
      if failsAt == Some(|overlapping| + 3) {
        labels, csi := savedLabels, savedCsi;
        return Unavailable;
      }
      RepaintedByAll(savedCsi, windowStart, windowEnd, labels, overlapping, csi);
      return Ok;
    }

    method CreateRoom(name: string, floor: int) returns (answer: Answer)
      modifies this`rooms
      ensures answer == if name == "" then Unprocessable else if name in old(rooms) then Conflict else Ok
      ensures rooms == if answer == Ok then old(rooms)[name := floor] else old(rooms)
    {
      if name == "" {
        return Unprocessable;
      }
      if name in rooms {
        return Conflict;
      }
      rooms := rooms[name := floor];
      return Ok;
    }

    /** `permitted` says whether this installation may write `training_samples`. */
    method UpdateRoom(name: string, newName: Option<string>, newFloor: Option<int>, dbError: bool, permitted: bool)
        returns (answer: Answer)
      modifies this
      ensures answer ==
        if newName == Some("") then Unprocessable
        else if name !in old(rooms) then NotFound
        else if OrElse(newName, name) == name then Ok
        else if newName.value in old(rooms) then Conflict
        else if dbError then Unavailable
        else Ok
      ensures answer == Ok ==>
        var new_, floor := OrElse(newName, name), OrElse(newFloor, old(rooms)[name]);
        View() == if new_ == name then old(View()).(rooms := old(rooms)[name := floor])
                  else Renamed(old(View()), name, new_, floor, permitted)
      ensures answer != Ok ==> View() == old(View())
      // the same in plain terms
      ensures answer == Ok && newName.Some? && newName.value != name ==>
        && name in old(rooms) && newName.value !in old(rooms) && newName.value != "" && name !in rooms && newName.value in rooms
        && rooms[newName.value] == (match newFloor case Some(f) => f case None => old(rooms)[name])
        && (forall id :: id in old(labels) <==> id in labels)
        && (forall id :: id in labels ==> labels[id].room == if old(labels)[id].room == name then newName.value else old(labels)[id].room)
        && (forall k :: k in old(csi) <==> k in csi)
        && (forall k :: k in csi ==> csi[k] == if old(csi)[k] == Some(name) then newName else old(csi)[k])
        && (permitted ==> forall k :: k in training ==>
              k in old(training) && training[k] == if old(training)[k] == name then newName.value else old(training)[k])
      ensures answer == Ok && (newName.None? || newName.value == name) ==>
        rooms == old(rooms)[name := match newFloor case Some(f) => f case None => old(rooms)[name]]
    {
      if newName == Some("") {
        return Unprocessable;
      }
      if name !in rooms {
        return NotFound;
      }
      var new_ := OrElse(newName, name);
      var floor := OrElse(newFloor, rooms[name]);
      if new_ == name {
        rooms := rooms[name := floor];
        return Ok;
      }
      if new_ in rooms {
        return Conflict;
      }
      var savedRooms, savedLabels := rooms, labels;
      rooms := (rooms - {name})[new_ := floor];
      labels := RenamedLabels(labels, name, new_);
      if dbError {
        rooms, labels := savedRooms, savedLabels;
        return Unavailable;
      }
      csi := RenamedPainting(csi, name, new_);
      if permitted {
        training := RenamedMirror(training, name, new_);
      }
      return Ok;
    }

    /** The foreign key keeps a room that some label names. */
    method DeleteRoom(name: string) returns (answer: Answer)
      modifies this`rooms
      ensures answer == if name !in old(rooms) then NotFound
                        else if exists id :: id in labels && labels[id].room == name then Conflict
                        else Ok
      ensures rooms == if answer == Ok then old(rooms) - {name} else old(rooms)
    {
      if name !in rooms {
        return NotFound;
      }
      if exists id :: id in labels && labels[id].room == name {
        return Conflict;
      }
      rooms := rooms - {name};
      return Ok;
    }

    /** The writer adds a sample, always unlabelled. */
    method InsertSample(k: Key)
      requires k !in csi
      modifies this`csi
      ensures csi == old(csi)[k := None]
    {
      csi := csi[k := None];
    }
  }
}
