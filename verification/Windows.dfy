/**
 The trainer's windowing of the row stream, against a specification in which no
 receiver disturbs another: each receiver's rows, cut into maximal runs of one
 room, each run chunked from its start into full windows.
 */
module Windows {
  import Chunking
  import opened Paging
  import opened Wrappers

  /** What the loop yields: the buffered rows, and the room they are labelled with. */
  datatype Window = Window(rows: List<Row>, room: string)

  function RowsOf(rows: List<Row>, receiver: int): List<Row> {
    if rows.Nil? then Nil
    else if rows.last.receiver == receiver then Snoc(RowsOf(rows.init, receiver), rows.last)
    else RowsOf(rows.init, receiver)
  }

  // ------------------------------------------------------------------- the runs

  /** The maximal runs of one room. */
  function Runs(rows: List<Row>): List<List<Row>> {
    match rows
    case Nil => Nil
    case Snoc(before, row) =>
      match Runs(before)
      case Nil => Snoc(Nil, Snoc(Nil, row))
      case Snoc(runs, run) =>
        if run.Snoc? && run.last.room == row.room then Snoc(runs, Snoc(run, row))
        else Snoc(Snoc(runs, run), Snoc(Nil, row))
  }

  function LastRun(rows: List<Row>): List<Row> {
    if Runs(rows).Nil? then Nil else Runs(rows).last
  }

  predicate OneRoom(run: List<Row>, room: string) {
    run.Snoc? ==> run.last.room == room && OneRoom(run.init, room)
  }

  /** No run is empty, each is of one room, and neighbours are of different rooms. */
  predicate Maximal(runs: List<List<Row>>) {
    runs.Snoc? ==>
      && runs.last.Snoc? && OneRoom(runs.last, runs.last.last.room)
      && Maximal(runs.init)
      && (runs.init.Snoc? ==> runs.init.last.Snoc? && runs.init.last.last.room != First(runs.last).room)
  }

  function First(run: List<Row>): Row
    requires run.Snoc?
  {
    if run.init.Nil? then run.last else First(run.init)
  }

  lemma {:induction false} RunsAreMaximal(rows: List<Row>)
    ensures Flat(Runs(rows)) == rows && Maximal(Runs(rows)) && (rows.Snoc? ==> LastRun(rows).Snoc? && LastRun(rows).last == rows.last)
  {
    if rows.Snoc? {
      RunsAreMaximal(rows.init);
      match Runs(rows.init)
      case Nil =>
        assert Append(Nil, Snoc(Nil, rows.last)) == Snoc(Append(Nil, Nil), rows.last);
      case Snoc(runs, run) =>
        assert Append(Flat(Runs(rows.init)), Snoc(Nil, rows.last)) == Snoc(Append(Flat(Runs(rows.init)), Nil), rows.last);
    }
  }

  // ----------------------------------------------------------------- the chunks

  /** The window that ends with the last row of the run, if one does. */
  function Completed(run: List<Row>, w: nat): Option<Window> {
    match Chunking.Completed(run, w)
    case None => None
    case Some(rows) => Some(Window(rows, run.last.room))
  }

  function Chunks(run: List<Row>, w: nat): List<Window> {
    if run.Nil? then Nil else Add(Chunks(run.init, w), Completed(run, w))
  }

  function FlatWindows(windows: List<Window>): List<Row> {
    if windows.Nil? then Nil else Append(FlatWindows(windows.init), windows.last.rows)
  }

  predicate AllFull(windows: List<Window>, w: nat, room: string) {
    windows.Snoc? ==>
      Length(windows.last.rows) == w && windows.last.room == room && AllFull(windows.init, w, room)
  }

  /** A run is its windows, side by side, each of `w` rows, and fewer than `w` rows that are dropped. */
  lemma {:induction false} ChunksFillTheRun(run: List<Row>, w: nat, room: string)
    requires w >= 1 && OneRoom(run, room)
    ensures Append(FlatWindows(Chunks(run, w)), Chunking.Unfinished(run, w)) == run
    ensures AllFull(Chunks(run, w), w, room) && Length(Chunking.Unfinished(run, w)) < w
  {
    if run.Snoc? {
      ChunksFillTheRun(run.init, w, room);
    }
  }

  /** All runs, chunked. */
  function Chunked(runs: List<List<Row>>, w: nat): List<Window> {
    if runs.Nil? then Nil else Append(Chunked(runs.init, w), Chunks(runs.last, w))
  }

  // ------------------------------------------------------------- the whole stream

  /** All windows of a stream, in the order of their last rows. */
  function WindowsOf(rows: List<Row>, w: nat): List<Window> {
    if rows.Nil? then Nil
    else Add(WindowsOf(rows.init, w), Completed(LastRun(RowsOf(rows, rows.last.receiver)), w))
  }

  /** The windows that end with a row of the receiver. */
  function WindowsFor(windows: List<Window>, receiver: int): List<Window> {
    if windows.Nil? then Nil
    else if windows.last.rows.Snoc? && windows.last.rows.last.receiver == receiver then
      Snoc(WindowsFor(windows.init, receiver), windows.last)
    else WindowsFor(windows.init, receiver)
  }

  lemma AppendAdd(windows: List<Window>, o: Option<Window>)
    ensures Append(windows, Add(Nil, o)) == Add(windows, o)
  {
    assert Append(windows, Nil) == windows;
  }

  lemma ChunkedSnoc(rows: List<Row>, row: Row, w: nat)
    ensures Chunked(Runs(Snoc(rows, row)), w) == Add(Chunked(Runs(rows), w), Completed(LastRun(Snoc(rows, row)), w))
  {
    match Runs(rows)
    case Nil =>
      assert Chunks(Snoc(Nil, row), w) == Add(Nil, Completed(Snoc(Nil, row), w));
      AppendAdd(Nil, Completed(Snoc(Nil, row), w));
    case Snoc(runs, run) =>
      if run.Snoc? && run.last.room == row.room {
        assert Chunks(Snoc(run, row), w) == Add(Chunks(run, w), Completed(Snoc(run, row), w));
      } else {
        var single := Snoc(Nil, row);
        assert Chunks(single, w) == Add(Nil, Completed(single, w));
        AppendAdd(Chunked(Snoc(runs, run), w), Completed(single, w));
      }
  }

  /** For each receiver, the windows are its own rows cut into maximal runs and chunked. */
  lemma {:induction false} EachReceiverIsChunked(rows: List<Row>, w: nat, receiver: int)
    ensures WindowsFor(WindowsOf(rows, w), receiver) == Chunked(Runs(RowsOf(rows, receiver)), w)
  {
    if rows.Snoc? {
      EachReceiverIsChunked(rows.init, w, receiver);
      var mine := RowsOf(rows.init, rows.last.receiver);
      RunsAreMaximal(Snoc(mine, rows.last));
      if receiver == rows.last.receiver {
        ChunkedSnoc(mine, rows.last, w);
      }
    }
  }

  // ---------------------------------------------------------- what is in a window

  predicate AllFrom(rows: List<Row>, receiver: int) {
    rows.Snoc? ==> rows.last.receiver == receiver && AllFrom(rows.init, receiver)
  }

  predicate RunsFrom(runs: List<List<Row>>, receiver: int) {
    runs.Snoc? ==> AllFrom(runs.last, receiver) && RunsFrom(runs.init, receiver)
  }

  /** Every window has `w` rows, all of one receiver and of the window's room. */
  predicate AllUniform(windows: List<Window>, w: nat) {
    windows.Snoc? ==>
      && Length(windows.last.rows) == w && windows.last.rows.Snoc?
      && AllFrom(windows.last.rows, windows.last.rows.last.receiver) && OneRoom(windows.last.rows, windows.last.room)
      && AllUniform(windows.init, w)
  }

  lemma {:induction false} RunsKeepReceiver(rows: List<Row>, receiver: int)
    ensures AllFrom(RowsOf(rows, receiver), receiver) && RunsFrom(Runs(RowsOf(rows, receiver)), receiver)
  {
    if rows.Snoc? {
      RunsKeepReceiver(rows.init, receiver);
    }
  }

  lemma {:induction false} LeftOverIsUniform(run: List<Row>, w: nat, receiver: int, room: string)
    requires AllFrom(run, receiver) && OneRoom(run, room)
    ensures AllFrom(Chunking.Unfinished(run, w), receiver) && OneRoom(Chunking.Unfinished(run, w), room)
  {
    if run.Snoc? {
      LeftOverIsUniform(run.init, w, receiver, room);
    }
  }

  lemma {:induction false} WindowsAreUniform(rows: List<Row>, w: nat)
    requires w >= 1
    ensures AllUniform(WindowsOf(rows, w), w)
  {
    if rows.Snoc? {
      WindowsAreUniform(rows.init, w);
      var mine := RowsOf(rows, rows.last.receiver);
      RunsKeepReceiver(rows, rows.last.receiver);
      RunsAreMaximal(mine);
      var run := LastRun(mine);
      LeftOverIsUniform(run.init, w, rows.last.receiver, run.last.room);
      Chunking.ChunksFill(run.init, w);
    }
  }

  /** A receiver's rows are all its rows: leaving them out leaves no row of it. */
  function Others(rows: List<Row>, receiver: int): List<Row> {
    if rows.Nil? then Nil
    else if rows.last.receiver == receiver then Others(rows.init, receiver)
    else Snoc(Others(rows.init, receiver), rows.last)
  }

  predicate NoneFrom(rows: List<Row>, receiver: int) {
    rows.Snoc? ==> rows.last.receiver != receiver && NoneFrom(rows.init, receiver)
  }

  lemma {:induction false} RowsOfTakesAll(rows: List<Row>, receiver: int)
    ensures NoneFrom(Others(rows, receiver), receiver) && AllFrom(RowsOf(rows, receiver), receiver)
    ensures multiset(ToSeq(rows)) == multiset(ToSeq(RowsOf(rows, receiver))) + multiset(ToSeq(Others(rows, receiver)))
  {
    if rows.Snoc? {
      RowsOfTakesAll(rows.init, receiver);
    }
  }

  // ------------------------------------------------------------------- the loop

  function BufferOf(buffers: map<int, List<Row>>, receiver: int): List<Row> {
    if receiver in buffers then buffers[receiver] else Nil
  }

  /** What the loop keeps of a receiver: its unfinished window and its last room. */
  ghost predicate Tracks(rows: List<Row>, buffer: List<Row>, room: Option<string>, w: nat) {
    && buffer == Chunking.Unfinished(LastRun(rows), w)
    && room == if rows.Nil? then None else Some(rows.last.room)
  }

  function RoomOf(rooms: map<int, string>, receiver: int): Option<string> {
    if receiver in rooms then Some(rooms[receiver]) else None
  }

  ghost predicate TracksAll(rows: List<Row>, buffers: map<int, List<Row>>, rooms: map<int, string>, w: nat) {
    forall r :: Tracks(RowsOf(rows, r), BufferOf(buffers, r), RoomOf(rooms, r), w)
  }

  /** The body of the loop. */
  method Feed(ghost before: List<Row>, row: Row, windowSize: int,
              windows: List<Window>, buffers: map<int, List<Row>>, rooms: map<int, string>)
      returns (windows': List<Window>, buffers': map<int, List<Row>>, rooms': map<int, string>)
    requires windows == WindowsOf(before, AtLeastOne(windowSize)) && TracksAll(before, buffers, rooms, AtLeastOne(windowSize))
    ensures windows' == WindowsOf(Snoc(before, row), AtLeastOne(windowSize))
    ensures TracksAll(Snoc(before, row), buffers', rooms', AtLeastOne(windowSize))
  {
    ghost var mine := RowsOf(before, row.receiver);
    RunsAreMaximal(mine);
    assert Tracks(mine, BufferOf(buffers, row.receiver), RoomOf(rooms, row.receiver), AtLeastOne(windowSize));
    var buffer := BufferOf(buffers, row.receiver);
    if row.receiver in rooms && rooms[row.receiver] != row.room {
      buffer := Nil;
    }
    buffer := Snoc(buffer, row);
    rooms' := rooms[row.receiver := row.room];
    windows' := windows;
    if Length(buffer) >= windowSize {
      windows' := Snoc(windows, Window(buffer, row.room));
      buffer := Nil;
    }
    buffers' := buffers[row.receiver := buffer];
    forall r ensures Tracks(RowsOf(Snoc(before, row), r), BufferOf(buffers', r), RoomOf(rooms', r), AtLeastOne(windowSize)) {
      assert Tracks(RowsOf(before, r), BufferOf(buffers, r), RoomOf(rooms, r), AtLeastOne(windowSize));
    }
  }

  method Windows(rows: seq<Row>, windowSize: int) returns (windows: List<Window>)
    ensures windows == WindowsOf(ListOf(rows), AtLeastOne(windowSize))
  {
    windows := Nil;
    var buffers: map<int, List<Row>> := map[];
    var rooms: map<int, string> := map[];
    for i := 0 to |rows|
      invariant windows == WindowsOf(ListOf(rows[..i]), AtLeastOne(windowSize))
      invariant TracksAll(ListOf(rows[..i]), buffers, rooms, AtLeastOne(windowSize))
    {
      assert rows[..i + 1][..i] == rows[..i];
      windows, buffers, rooms := Feed(ListOf(rows[..i]), rows[i], windowSize, windows, buffers, rooms);
    }
    assert rows[..|rows|] == rows;
  }

  /** The windows of the paged stream of a table. */
  method WindowsOfTable(table: Table, req: Request, pageSize: int, windowSize: int)
      returns (windows: Option<List<Window>>, ghost rows: seq<Row>)
    requires UniqueKeys(table)
    ensures windows.Some? <==> Acceptable(req, pageSize)
    ensures windows.Some? ==> Listing(table, req, None, rows)
    ensures windows.Some? ==> windows.value == WindowsOf(ListOf(rows), AtLeastOne(windowSize))
  {
    rows := [];
    var stream := IterTrainingData([table], req, pageSize);
    if stream.None? {
      return None, rows;
    }
    rows := stream.value;
    var made := Windows(stream.value, windowSize);
    return Some(made), rows;
  }

  /** Sessions with pages of any two sizes give the same windows. */
  lemma SameForEveryPageSize(table: Table, req: Request, sizeOne: nat, sizeTwo: nat, one: Pages, two: Pages, w: nat)
    requires sizeOne >= 1 && Session(table, req, None, sizeOne, one)
    requires sizeTwo >= 1 && Session(table, req, None, sizeTwo, two)
    ensures WindowsOf(ListOf(Streamed(one)), w) == WindowsOf(ListOf(Streamed(two)), w)
  {
    SessionIsListing(table, req, None, sizeOne, one);
    SessionIsListing(table, req, None, sizeTwo, two);
    ListingIsUnique(Streamed(one), Streamed(two));
  }

  // -------------------------------------------------------------- the collection

  datatype Collection = NoWindows | WidthsDiffer | Collected(features: seq<seq<int>>, targets: seq<string>, rowCount: nat)

  predicate SameWidth(windows: seq<Window>, extract: List<Row> -> seq<int>)
    requires windows != []
  {
    forall i :: 0 <= i < |windows| ==> |extract(windows[i].rows)| == |extract(windows[0].rows)|
  }

  /** `extract` is the feature extractor, of which only the width of its result matters here. */
  method CollectWindows(rows: seq<Row>, windowSize: int, extract: List<Row> -> seq<int>) returns (result: Collection)
    ensures var windows := ToSeq(WindowsOf(ListOf(rows), AtLeastOne(windowSize)));
      match result
      case NoWindows => windows == []
      case WidthsDiffer => windows != [] && !SameWidth(windows, extract)
      case Collected(features, targets, rowCount) =>
        && rowCount == |rows| && |features| == |targets| == |windows| > 0
        && SameWidth(windows, extract)
        && forall i :: 0 <= i < |windows| ==> features[i] == extract(windows[i].rows) && targets[i] == windows[i].room
  {
    var made := Windows(rows, windowSize);
    var windows := ToSeq(made);
    var features: seq<seq<int>>, targets: seq<string> := [], [];
    for i := 0 to |windows|
      invariant |features| == |targets| == i
      invariant forall j :: 0 <= j < i ==> features[j] == extract(windows[j].rows) && targets[j] == windows[j].room
    {
      features := features + [extract(windows[i].rows)];
      targets := targets + [windows[i].room];
    }
    if features == [] {
      return NoWindows;
    }
    var widths := set i | 0 <= i < |features| :: |features[i]|;
    if widths != {|features[0]|} {
      assert !SameWidth(windows, extract);
      return WidthsDiffer;
    }
    assert forall i :: 0 <= i < |features| ==> |features[i]| in widths;
    return Collected(features, targets, |rows|);
  }
}
