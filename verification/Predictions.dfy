/**
 The inference loop: rows of a live stream are windowed per receiver, each window
 casts a vote of the active model, and the majority of each receiver's recent votes
 is published. Connections drop and models change at any row.
 */
module Predictions {
  import Chunking
  import opened Wrappers

  const VOTE_HISTORY: nat := 5

  /** A row of the stream; one without a receiver is malformed. */
  datatype Row = Row(receiver: Option<int>, csi: nat)

  datatype Model = Model(id: int, classes: seq<string>)
  datatype Published = Published(model: int, rooms: map<string, int>)

  // ------------------------------------------------------------------- the majority

  function Count(votes: seq<string>, room: string): nat {
    if votes == [] then 0 else Count(votes[..|votes| - 1], room) + if votes[|votes| - 1] == room then 1 else 0
  }

  lemma {:induction false} CountIsMultiplicity(votes: seq<string>, room: string)
    ensures Count(votes, room) == multiset(votes)[room]
  {
    if votes != [] {
      CountIsMultiplicity(votes[..|votes| - 1], room);
      assert votes == votes[..|votes| - 1] + [votes[|votes| - 1]];
    }
  }

  /** The room with the most votes; of several, the one that was voted for first. */
  ghost predicate IsMajority(votes: seq<string>, first: nat) {
    && first < |votes|
    && (forall i :: 0 <= i < |votes| ==> Count(votes, votes[i]) <= Count(votes, votes[first]))
    && (forall i :: 0 <= i < first ==> Count(votes, votes[i]) < Count(votes, votes[first]))
  }

  ghost predicate Wins(votes: seq<string>, room: string) {
    exists first: nat :: IsMajority(votes, first) && votes[first] == room
  }

  lemma WinnerIsUnique(votes: seq<string>, one: string, two: string)
    requires Wins(votes, one) && Wins(votes, two)
    ensures one == two
  {
    var i: nat :| IsMajority(votes, i) && votes[i] == one;
    var j: nat :| IsMajority(votes, j) && votes[j] == two;
    assert i == j;
  }

  function Tally(counts: map<string, nat>, room: string): nat {
    if room in counts then counts[room] else 0
  }

  ghost predicate Counted(votes: seq<string>, counts: map<string, nat>) {
    forall room :: Tally(counts, room) == Count(votes, room)
  }

  method CountVotes(votes: seq<string>) returns (counts: map<string, nat>)
    ensures Counted(votes, counts)
  {
    counts := map[];
    for i := 0 to |votes|
      invariant Counted(votes[..i], counts)
    {
      assert votes[..i + 1][..i] == votes[..i];
      counts := counts[votes[i] := Tally(counts, votes[i]) + 1];
    }
    assert votes[..|votes|] == votes;
  }

  /** The first of the most common, in the order in which they were counted. */
  method MostCommon(votes: seq<string>) returns (top: string)
    requires votes != []
    ensures Wins(votes, top)
  {
    var counts := CountVotes(votes);
    var first: nat := 0;
    for i: nat := 1 to |votes|
      invariant first < i
      invariant forall j :: 0 <= j < i ==> Count(votes, votes[j]) <= Count(votes, votes[first])
      invariant forall j :: 0 <= j < first ==> Count(votes, votes[j]) < Count(votes, votes[first])
    {
      assert Tally(counts, votes[i]) == Count(votes, votes[i]) && Tally(counts, votes[first]) == Count(votes, votes[first]);
      if Tally(counts, votes[i]) > Tally(counts, votes[first]) {
        first := i;
      }
    }
    assert IsMajority(votes, first);
    top := votes[first];
  }

  type Votes = map<int, seq<string>>

  /** A room is occupied when some receiver's votes have it as their winner. */
  ghost predicate Occupied(votes: Votes, room: string) {
    exists r :: r in votes && Wins(votes[r], room)
  }

  ghost predicate IsAggregate(votes: Votes, classes: seq<string>, rooms: map<string, int>) {
    && (forall room :: room in rooms <==> room in classes)
    && (forall room :: room in rooms ==> rooms[room] == if Occupied(votes, room) then 1 else 0)
  }

  lemma Inhabited(s: set<int>)
    ensures s == {} || exists x :: x in s
  {
    if forall x :: x !in s {
      assert s == {};
    }
  }

  method Aggregate(votes: Votes, classes: seq<string>) returns (rooms: map<string, int>)
    ensures IsAggregate(votes, classes, rooms)
  {
    var winners: set<string> := {};
    var left := votes.Keys;
    while left != {}
      invariant left <= votes.Keys
      invariant forall room :: room in winners <==> exists r :: r in votes && r !in left && Wins(votes[r], room)
      decreases left
    {
      Inhabited(left);
      var r :| r in left;
      if votes[r] != [] {
        var top := MostCommon(votes[r]);
        WinnersGrow(votes, left, r, winners, top);
        winners := winners + {top};
      }
      left := left - {r};
    }
    rooms := map room | room in classes :: if room in winners then 1 else 0;
  }

  lemma WinnersGrow(votes: Votes, left: set<int>, r: int, winners: set<string>, top: string)
    requires r in left && r in votes && Wins(votes[r], top)
    requires forall room :: room in winners <==> exists s :: s in votes && s !in left && Wins(votes[s], room)
    ensures forall room :: room in winners + {top} <==> exists s :: s in votes && s !in left - {r} && Wins(votes[s], room)
  {
    forall room ensures room in winners + {top} <==> exists s :: s in votes && s !in left - {r} && Wins(votes[s], room) {
      if s :| s in votes && s !in left - {r} && Wins(votes[s], room) {
        if s == r {
          WinnerIsUnique(votes[r], room, top);
        }
      }
    }
  }

  /** There is one aggregate. */
  lemma AggregateIsUnique(votes: Votes, classes: seq<string>, one: map<string, int>, two: map<string, int>)
    requires IsAggregate(votes, classes, one) && IsAggregate(votes, classes, two)
    ensures one == two
  {
    assert one.Keys == two.Keys;
  }

  /** A receiver without votes changes nothing. */
  lemma EmptyVotesDoNotCount(votes: Votes, r: int, classes: seq<string>, rooms: map<string, int>)
    requires IsAggregate(votes, classes, rooms)
    ensures IsAggregate(votes[r := VotesOf(votes, r)], classes, rooms)
  {
    forall room ensures Occupied(votes[r := VotesOf(votes, r)], room) <==> Occupied(votes, room) {
      if s :| s in votes && Wins(votes[s], room) {
        assert votes[r := VotesOf(votes, r)][s] == votes[s];
      }
    }
  }

  ghost predicate HasVotes(votes: Votes) {
    exists r :: r in votes && votes[r] != []
  }

  function VotesOf(votes: Votes, r: int): seq<string> {
    if r in votes then votes[r] else []
  }

  // ---------------------------------------------------------------- where votes come from

  /** An event of the stream with the model that is active when it arrives, or the end of a connection. */
  datatype Input =
    | Event(row: Option<Row>, model: Option<Model>, putOk: bool, landed: bool)
    | Drop

  /** The room a model gives for a window, if it gives one. */
  type Classifier = (int, List<Row>) -> Option<string>

  /** The rows of one receiver under one unchanged model, connection by connection. */
  type Feeds = List<List<Row>>

  /** The model the last row of the stream was handled with. */
  function ActiveModel(inputs: List<Input>): Option<int> {
    if inputs.Nil? then None
    else if inputs.last.Drop? || inputs.last.row.None? then ActiveModel(inputs.init)
    else if inputs.last.model.None? then None
    else Some(inputs.last.model.value.id)
  }

  /** What a receiver has sent since that model became active. */
  function FeedsOf(inputs: List<Input>, r: int): Feeds {
    if inputs.Nil? then Snoc(Nil, Nil)
    else
      match inputs.last
      case Drop => Snoc(FeedsOf(inputs.init, r), Nil)
      case Event(row, model, _, _) =>
        if row.None? then FeedsOf(inputs.init, r)
        else if model.None? then Snoc(Nil, Nil)
        else Fed(if ActiveModel(inputs.init) == Some(model.value.id) then FeedsOf(inputs.init, r) else Snoc(Nil, Nil), row.value, r)
  }

  /** The same, when a row comes under a model that may be a new one. */
  function Since(inputs: List<Input>, model: int, r: int): Feeds {
    if ActiveModel(inputs) == Some(model) then FeedsOf(inputs, r) else Snoc(Nil, Nil)
  }

  function Fed(feeds: Feeds, row: Row, r: int): Feeds {
    if feeds.Snoc? && row.receiver == Some(r) then Snoc(feeds.init, Snoc(feeds.last, row)) else feeds
  }

  /** The answers to the windows, in order; a window the model cannot answer gives none. */
  function Answers(predict: Classifier, model: int, windows: List<List<Row>>): List<string> {
    if windows.Nil? then Nil else Add(Answers(predict, model, windows.init), predict(model, windows.last))
  }

  /** All votes of a receiver: each feed, cut from its start into windows of `w` rows, and each window answered. */
  function Ballots(predict: Classifier, model: int, w: nat, feeds: Feeds): List<string> {
    if feeds.Nil? then Nil
    else Append(Ballots(predict, model, w, feeds.init), Answers(predict, model, Chunking.Chunks(feeds.last, w)))
  }

  /** The last `n`, in order. */
  function Latest(votes: List<string>, n: nat): seq<string> {
    if n == 0 || votes.Nil? then [] else Latest(votes.init, n - 1) + [votes.last]
  }

  function Push(votes: seq<string>, vote: string): seq<string> {
    if |votes| >= VOTE_HISTORY then votes[1..] + [vote] else votes + [vote]
  }

  lemma {:induction false} LatestLoses(votes: List<string>, n: nat)
    ensures |Latest(votes, n)| == if Length(votes) < n then Length(votes) else n
    ensures n > 0 ==> Latest(votes, n - 1) == if Length(votes) < n then Latest(votes, n) else Latest(votes, n)[1..]
  {
    if n > 0 && votes.Snoc? {
      LatestLoses(votes.init, n - 1);
    }
  }

  /** Pushing keeps the last five: the oldest leaves. */
  lemma PushKeepsLatest(votes: List<string>, vote: string)
    ensures Push(Latest(votes, VOTE_HISTORY), vote) == Latest(Snoc(votes, vote), VOTE_HISTORY)
  {
    LatestLoses(votes, VOTE_HISTORY);
  }

  function BufferOf(buffers: map<int, List<Row>>, r: int): List<Row> {
    if r in buffers then buffers[r] else Nil
  }

  /** The buffer is what is left over of the last feed, the votes are the last five of all. */
  ghost predicate Tracks(predict: Classifier, w: nat, model: int, buffer: List<Row>, votes: seq<string>, feeds: Feeds) {
    && feeds.Snoc?
    && buffer == Chunking.Unfinished(feeds.last, w)
    && votes == Latest(Ballots(predict, model, w, feeds), VOTE_HISTORY)
  }

  lemma RowTracks(predict: Classifier, w: nat, model: int, buffer: List<Row>, votes: seq<string>, feeds: Feeds, row: Row, r: int)
    requires Tracks(predict, w, model, buffer, votes, feeds) && row.receiver == Some(r)
    ensures var fed := Snoc(buffer, row);
            if Length(fed) < w then Tracks(predict, w, model, fed, votes, Fed(feeds, row, r))
            else Tracks(predict, w, model, Nil, if predict(model, fed).Some? then Push(votes, predict(model, fed).value) else votes,
                        Fed(feeds, row, r))
  {
    var fed, ballots := Snoc(buffer, row), Ballots(predict, model, w, feeds);
    var all := Snoc(feeds.last, row);
    assert Chunking.Chunks(all, w) ==
           if Length(fed) >= w then Snoc(Chunking.Chunks(feeds.last, w), fed) else Chunking.Chunks(feeds.last, w);
    if Length(fed) >= w && predict(model, fed).Some? {
      PushKeepsLatest(ballots, predict(model, fed).value);
    }
  }

  lemma DropTracks(predict: Classifier, w: nat, model: int, buffer: List<Row>, votes: seq<string>, feeds: Feeds)
    requires Tracks(predict, w, model, buffer, votes, feeds)
    ensures Tracks(predict, w, model, Nil, votes, Snoc(feeds, Nil))
  {
    var ballots := Ballots(predict, model, w, feeds);
    assert Append(ballots, Nil) == ballots;
    assert Answers(predict, model, Chunking.Chunks(Nil, w)) == Nil;
  }

  // ---------------------------------------------------- each vote has its window

  /** The last rows of a feed. */
  predicate Suffix(part: List<Row>, all: List<Row>) {
    part.Nil? || (all.Snoc? && part.last == all.last && Suffix(part.init, all.init))
  }

  /** Consecutive rows of a feed. */
  predicate Within(part: List<Row>, all: List<Row>) {
    Suffix(part, all) || (all.Snoc? && Within(part, all.init))
  }

  /** The model gave the room for `w` consecutive rows of one connection. */
  ghost predicate CastOn(predict: Classifier, model: int, w: nat, room: string, feed: List<Row>) {
    exists rows :: Length(rows) == w && Within(rows, feed) && predict(model, rows) == Some(room)
  }

  ghost predicate Cast(predict: Classifier, model: int, w: nat, room: string, feeds: Feeds) {
    feeds.Snoc? && (CastOn(predict, model, w, room, feeds.last) || Cast(predict, model, w, room, feeds.init))
  }

  ghost predicate AllCast(predict: Classifier, model: int, w: nat, rooms: List<string>, feeds: Feeds) {
    rooms.Snoc? ==> Cast(predict, model, w, rooms.last, feeds) && AllCast(predict, model, w, rooms.init, feeds)
  }

  ghost predicate AllCastOn(predict: Classifier, model: int, w: nat, rooms: List<string>, feed: List<Row>) {
    rooms.Snoc? ==> CastOn(predict, model, w, rooms.last, feed) && AllCastOn(predict, model, w, rooms.init, feed)
  }

  lemma {:induction false} UnfinishedIsSuffix(all: List<Row>, w: nat)
    ensures Suffix(Chunking.Unfinished(all, w), all)
  {
    if all.Snoc? {
      UnfinishedIsSuffix(all.init, w);
    }
  }

  lemma {:induction false} LongerFeed(predict: Classifier, model: int, w: nat, rooms: List<string>, feed: List<Row>, row: Row)
    requires AllCastOn(predict, model, w, rooms, feed)
    ensures AllCastOn(predict, model, w, rooms, Snoc(feed, row))
  {
    if rooms.Snoc? {
      var rows :| Length(rows) == w && Within(rows, feed) && predict(model, rows) == Some(rooms.last);
      assert Within(rows, Snoc(feed, row));
      LongerFeed(predict, model, w, rooms.init, feed, row);
    }
  }

  lemma {:induction false} AnswersAreCast(predict: Classifier, model: int, w: nat, feed: List<Row>)
    requires w >= 1
    ensures AllCastOn(predict, model, w, Answers(predict, model, Chunking.Chunks(feed, w)), feed)
  {
    if feed.Snoc? {
      AnswersAreCast(predict, model, w, feed.init);
      LongerFeed(predict, model, w, Answers(predict, model, Chunking.Chunks(feed.init, w)), feed.init, feed.last);
      UnfinishedIsSuffix(feed.init, w);
      Chunking.ChunksFill(feed.init, w);
      var fed := Snoc(Chunking.Unfinished(feed.init, w), feed.last);
      assert Length(fed) >= w ==> Length(fed) == w && Within(fed, feed);
    }
  }

  lemma {:induction false} OlderFeeds(predict: Classifier, model: int, w: nat, rooms: List<string>, feeds: Feeds, feed: List<Row>)
    requires AllCast(predict, model, w, rooms, feeds)
    ensures AllCast(predict, model, w, rooms, Snoc(feeds, feed))
  {
    if rooms.Snoc? {
      OlderFeeds(predict, model, w, rooms.init, feeds, feed);
    }
  }

  lemma {:induction false} OlderAndLast(predict: Classifier, model: int, w: nat, older: List<string>, rooms: List<string>, feeds: Feeds)
    requires feeds.Snoc? && AllCast(predict, model, w, older, feeds) && AllCastOn(predict, model, w, rooms, feeds.last)
    ensures AllCast(predict, model, w, Append(older, rooms), feeds)
  {
    if rooms.Snoc? {
      OlderAndLast(predict, model, w, older, rooms.init, feeds);
    }
  }

  /** Every ballot is the model's answer for exactly `w` consecutive rows of the receiver on one connection. */
  lemma {:induction false} BallotsAreCast(predict: Classifier, model: int, w: nat, feeds: Feeds)
    requires w >= 1
    ensures AllCast(predict, model, w, Ballots(predict, model, w, feeds), feeds)
  {
    if feeds.Snoc? {
      BallotsAreCast(predict, model, w, feeds.init);
      OlderFeeds(predict, model, w, Ballots(predict, model, w, feeds.init), feeds.init, feeds.last);
      AnswersAreCast(predict, model, w, feeds.last);
      OlderAndLast(predict, model, w, Ballots(predict, model, w, feeds.init),
                   Answers(predict, model, Chunking.Chunks(feeds.last, w)), feeds);
    }
  }

  ghost predicate AllTrack(predict: Classifier, w: nat, model: int, buffers: map<int, List<Row>>, votes: Votes, inputs: List<Input>) {
    forall r :: Tracks(predict, w, model, BufferOf(buffers, r), VotesOf(votes, r), Since(inputs, model, r))
  }

  // ------------------------------------------------------------------------- the loop

  class Volva {
    const predict: Classifier
    const windowSize: int
    var buffers: map<int, List<Row>>
    var votes: Votes
    var lastPublished: Option<Published>
    var activeModel: Option<int>

    /** What the API server stores, and whether every write that changed it was acknowledged. */
    var stored: Option<Published>
    ghost var acknowledged: bool

    /** The classes of the model that cast the last vote, and whether publishing after that vote failed. */
    ghost var classes: seq<string>
    ghost var failed: bool

    /** Everything that came from the stream so far. */
    ghost var inputs: List<Input>

    /** Buffers and votes are what the stream says. */
    ghost predicate Tracked()
      reads this
    {
      && activeModel == ActiveModel(inputs)
      && if activeModel.Some? then AllTrack(predict, AtLeastOne(windowSize), activeModel.value, buffers, votes, inputs)
         else buffers == map[] && votes == map[]
    }

    /** The last publication is what the server stores, and of the active model. */
    ghost predicate Confirmed()
      reads this
    {
      lastPublished.Some? ==>
        (acknowledged ==> stored == lastPublished) && activeModel == Some(lastPublished.value.model)
    }

    /** The last publication is the aggregate of the votes, unless publishing failed since the last one. */
    ghost predicate UpToDate()
      reads this
    {
      HasVotes(votes) && !failed ==> lastPublished.Some? && IsAggregate(votes, classes, lastPublished.value.rooms)
    }

    ghost predicate Valid()
      reads this
    {
      Tracked() && Confirmed() && UpToDate()
    }

    /** The server stores the active model and the aggregate of the current votes. */
    ghost predicate Shown()
      reads this
    {
      stored.Some? && activeModel == Some(stored.value.model) && IsAggregate(votes, classes, stored.value.rooms)
    }

    constructor (predict: Classifier, windowSize: int, stored: Option<Published>)
      ensures Valid() && this.predict == predict && this.windowSize == windowSize && inputs == Nil && acknowledged && !failed
    {
      this.predict, this.windowSize, this.stored := predict, windowSize, stored;
      buffers, votes, inputs := map[], map[], Nil;
      lastPublished, activeModel, acknowledged := None, None, true;
      classes, failed := [], false;
    }

    method Forget(model: Option<int>)
      modifies `buffers, `votes, `lastPublished, `activeModel, `failed
      ensures votes == map[] && buffers == map[] && lastPublished == None && activeModel == model && !failed
    {
      buffers, votes := map[], map[];
      lastPublished, activeModel := None, model;
      failed := false;
    }

    /**
     A row under the active model. Buffers and votes change for its receiver only: the row
     joins the buffer, and a full buffer is emptied and casts the model's answer, if it has one.
     */
    method HandleRow(row: Row, model: Model, ghost input: Input) returns (changed: bool)
      requires AllTrack(predict, AtLeastOne(windowSize), model.id, buffers, votes, inputs)
      requires input.Event? && input.row == Some(row) && input.model == Some(model)
      modifies `buffers, `votes
      ensures row.receiver.None? ==> buffers == old(buffers) && votes == old(votes) && !changed
      ensures row.receiver.Some? ==>
        var r := row.receiver.value;
        var fed := Snoc(BufferOf(old(buffers), r), row);
        && buffers == old(buffers)[r := if Length(fed) >= windowSize then Nil else fed]
        && changed == (Length(fed) >= windowSize && predict(model.id, fed).Some?)
        && votes == old(votes)[r := if changed then Push(VotesOf(old(votes), r), predict(model.id, fed).value)
                                    else VotesOf(old(votes), r)]
      ensures AllTrack(predict, AtLeastOne(windowSize), model.id, buffers, votes, Snoc(inputs, input))
    {
      if row.receiver.None? {
        SameForAll(buffers, votes, row, model, input);
        return false;
      }
      var r := row.receiver.value;
      var buffer := Snoc(BufferOf(buffers, r), row);
      ghost var oldBuffers, oldVotes := buffers, votes;
      changed := false;
      votes := votes[r := VotesOf(votes, r)];
      if Length(buffer) < windowSize {
        buffers := buffers[r := buffer];
      } else {
        var room := predict(model.id, buffer);
        buffers := buffers[r := Nil];
        if room.Some? {
          votes := votes[r := Push(votes[r], room.value)];
          changed := true;
        }
      }
      RowForOne(oldBuffers, oldVotes, row, model, input, buffers[r], votes[r]);
    }

    lemma SameForAll(buffers: map<int, List<Row>>, votes: Votes, row: Row, model: Model, input: Input)
      requires AllTrack(predict, AtLeastOne(windowSize), model.id, buffers, votes, inputs)
      requires input.Event? && input.row == Some(row) && input.model == Some(model) && row.receiver.None?
      ensures AllTrack(predict, AtLeastOne(windowSize), model.id, buffers, votes, Snoc(inputs, input))
    {
      forall r ensures Tracks(predict, AtLeastOne(windowSize), model.id, BufferOf(buffers, r), VotesOf(votes, r),
                              Since(Snoc(inputs, input), model.id, r))
      {
        assert Tracks(predict, AtLeastOne(windowSize), model.id, BufferOf(buffers, r), VotesOf(votes, r), Since(inputs, model.id, r));
        assert Since(Snoc(inputs, input), model.id, r) == Fed(Since(inputs, model.id, r), row, r);
      }
    }

    lemma RowForOne(buffers: map<int, List<Row>>, votes: Votes, row: Row, model: Model, input: Input,
                    buffer': List<Row>, votes': seq<string>)
      requires AllTrack(predict, AtLeastOne(windowSize), model.id, buffers, votes, inputs)
      requires input.Event? && input.row == Some(row) && input.model == Some(model) && row.receiver.Some?
      requires var fed := Snoc(BufferOf(buffers, row.receiver.value), row);
        && buffer' == (if Length(fed) < AtLeastOne(windowSize) then fed else Nil)
        && votes' == if Length(fed) >= AtLeastOne(windowSize) && predict(model.id, fed).Some?
                     then Push(VotesOf(votes, row.receiver.value), predict(model.id, fed).value)
                     else VotesOf(votes, row.receiver.value)
      ensures AllTrack(predict, AtLeastOne(windowSize), model.id, buffers[row.receiver.value := buffer'],
                       votes[row.receiver.value := votes'], Snoc(inputs, input))
    {
      var mine := row.receiver.value;
      forall r ensures Tracks(predict, AtLeastOne(windowSize), model.id, BufferOf(buffers[mine := buffer'], r),
                              VotesOf(votes[mine := votes'], r), Since(Snoc(inputs, input), model.id, r))
      {
        assert Tracks(predict, AtLeastOne(windowSize), model.id, BufferOf(buffers, r), VotesOf(votes, r), Since(inputs, model.id, r));
        assert Since(Snoc(inputs, input), model.id, r) == Fed(Since(inputs, model.id, r), row, r);
        if r == mine {
          RowTracks(predict, AtLeastOne(windowSize), model.id, BufferOf(buffers, r), VotesOf(votes, r), Since(inputs, model.id, r), row, r);
        }
      }
    }

    /** The PUT request; `landed` tells whether it reached the server, `putOk` whether its answer came back. */
    method Put(payload: Published, putOk: bool, landed: bool)
      requires Confirmed() && activeModel == Some(payload.model) && (putOk ==> landed)
      modifies `lastPublished, `stored, `acknowledged, `failed
      ensures Confirmed()
      ensures lastPublished == if putOk then Some(payload) else old(lastPublished)
      ensures stored == if landed then Some(payload) else old(stored)
      ensures acknowledged == (old(acknowledged) && (putOk || stored == old(stored)))
      ensures failed == !putOk
    {
      if landed {
        acknowledged := acknowledged && (putOk || stored == Some(payload));
        stored := Some(payload);
      }
      if putOk {
        lastPublished := Some(payload);
      }
      failed := !putOk;
    }

    /** Publishes the aggregate of the votes, unless the last publication said the same. */
    method MaybePublish(model: Model, putOk: bool, landed: bool) returns (payload: Published)
      requires Confirmed() && activeModel == Some(model.id) && (putOk ==> landed)
      modifies `lastPublished, `stored, `acknowledged, `classes, `failed
      ensures Confirmed() && UpToDate() && classes == model.classes
      ensures payload.model == model.id && IsAggregate(votes, model.classes, payload.rooms)
      ensures old(lastPublished) == Some(payload) ==>
        lastPublished == old(lastPublished) && stored == old(stored) && acknowledged == old(acknowledged) && !failed
      ensures old(lastPublished) != Some(payload) ==>
        && lastPublished == (if putOk then Some(payload) else old(lastPublished))
        && stored == (if landed then Some(payload) else old(stored))
        && acknowledged == (old(acknowledged) && (putOk || stored == old(stored)))
        && failed == !putOk
    {
      var rooms := Aggregate(votes, model.classes);
      payload := Published(model.id, rooms);
      classes := model.classes;
      if lastPublished == Some(payload) {
        failed := false;
        return;
      }
      Put(payload, putOk, landed);
    }

    /** A row under a model. */
    method OnRow(row: Row, model: Model, putOk: bool, landed: bool, ghost input: Input) returns (voted: bool)
      requires AllTrack(predict, AtLeastOne(windowSize), model.id, buffers, votes, inputs)
      requires input == Event(Some(row), Some(model), putOk, landed)
      requires Confirmed() && UpToDate() && activeModel == Some(model.id) && (putOk ==> landed)
      modifies `buffers, `votes, `inputs, `lastPublished, `stored, `acknowledged, `classes, `failed
      ensures Valid() && inputs == Snoc(old(inputs), input)
      ensures acknowledged == (old(acknowledged) && (stored == old(stored) || putOk))
      ensures putOk && failed ==> old(failed)
      ensures voted ==> HasVotes(votes) && classes == model.classes && (putOk ==> !failed)
    {
      ghost var before := votes;
      voted := HandleRow(row, model, input);
      inputs := Snoc(inputs, input);
      if voted {
        assert votes[row.receiver.value] != [];
        var _ := MaybePublish(model, putOk, landed);
      } else {
        NoVoteStaysUpToDate(before, row);
      }
    }

    /** One event. */
    method OnEvent(row: Option<Row>, model: Option<Model>, putOk: bool, landed: bool) returns (voted: bool)
      requires Valid() && (putOk ==> landed)
      modifies this
      ensures Valid() && inputs == Snoc(old(inputs), Event(row, model, putOk, landed))
      ensures row.Some? ==> activeModel == if model.Some? then Some(model.value.id) else None
      ensures row.Some? && model.None? ==> votes == map[] && lastPublished == None
      ensures acknowledged == (old(acknowledged) && (stored == old(stored) || putOk))
      ensures putOk && failed ==> old(failed)
      ensures voted ==> HasVotes(votes) && row.Some? && model.Some? && classes == model.value.classes && (putOk ==> !failed)
    {
      ghost var input := Event(row, model, putOk, landed);
      if row.None? {
        Unheard(input);
        inputs := Snoc(inputs, input);
        return false;
      }
      if model.None? {
        Forget(None);
        inputs := Snoc(inputs, input);
        return false;
      }
      if activeModel != Some(model.value.id) {
        Forget(Some(model.value.id));
        NewModelTracks(model.value.id);
      }
      voted := OnRow(row.value, model.value, putOk, landed, input);
    }

    /** What is not a row changes nothing. */
    lemma Unheard(input: Input)
      requires Tracked() && input.Event? && input.row.None?
      ensures ActiveModel(Snoc(inputs, input)) == activeModel
      ensures activeModel.Some? ==>
        AllTrack(predict, AtLeastOne(windowSize), activeModel.value, buffers, votes, Snoc(inputs, input))
    {
      if activeModel.Some? {
        forall r ensures Tracks(predict, AtLeastOne(windowSize), activeModel.value, BufferOf(buffers, r), VotesOf(votes, r),
                                Since(Snoc(inputs, input), activeModel.value, r))
        {
          assert Since(Snoc(inputs, input), activeModel.value, r) == Since(inputs, activeModel.value, r);
        }
      }
    }

    lemma NewModelTracks(model: int)
      requires ActiveModel(inputs) != Some(model) && buffers == map[] && votes == map[]
      ensures AllTrack(predict, AtLeastOne(windowSize), model, buffers, votes, inputs)
    {
      var w := AtLeastOne(windowSize);
      assert Ballots(predict, model, w, Snoc(Nil, Nil)) == Append(Nil, Answers(predict, model, Chunking.Chunks(Nil, w)));
    }

    /** A row that casts no vote leaves the publication as good as it was. */
    ghost method NoVoteStaysUpToDate(before: Votes, row: Row)
      requires HasVotes(before) && !failed ==> lastPublished.Some? && IsAggregate(before, classes, lastPublished.value.rooms)
      requires votes == if row.receiver.None? then before else before[row.receiver.value := VotesOf(before, row.receiver.value)]
      ensures UpToDate()
    {
      if row.receiver.Some? && HasVotes(votes) && !failed {
        var s :| s in votes && votes[s] != [];
        assert s in before && before[s] != [];
        EmptyVotesDoNotCount(before, row.receiver.value, classes, lastPublished.value.rooms);
      }
    }

    /** The end of a connection: buffers are emptied, votes kept. */
    method OnDrop()
      requires Valid()
      modifies `buffers, `inputs
      ensures Valid() && inputs == Snoc(old(inputs), Drop) && votes == old(votes)
      ensures buffers.Keys == old(buffers).Keys && forall r :: r in buffers ==> buffers[r] == Nil
    {
      DropForAll();
      buffers := map r | r in buffers :: Nil;
      inputs := Snoc(inputs, Drop);
    }

    lemma DropForAll()
      requires Tracked()
      ensures activeModel.Some? ==> forall r ::
        Tracks(predict, AtLeastOne(windowSize), activeModel.value, Nil, VotesOf(votes, r), Since(Snoc(inputs, Drop), activeModel.value, r))
    {
      if activeModel.Some? {
        forall r ensures Tracks(predict, AtLeastOne(windowSize), activeModel.value, Nil, VotesOf(votes, r),
                                Since(Snoc(inputs, Drop), activeModel.value, r))
        {
          DropTracks(predict, AtLeastOne(windowSize), activeModel.value, BufferOf(buffers, r), VotesOf(votes, r),
                     Since(inputs, activeModel.value, r));
          assert Since(Snoc(inputs, Drop), activeModel.value, r) == Snoc(Since(inputs, activeModel.value, r), Nil);
        }
      }
    }

    /**
     A whole run. The votes of every receiver are the last five of all its ballots: what it sent
     under the active model, on each connection, cut from its start into windows, each window
     answered in order. As long as no write was lost and the last publication did not fail, the
     server shows the aggregate of the votes once one was cast.
     */
    method StreamLoop(stream: seq<Input>)
      requires Valid() && inputs == Nil
      requires forall i :: 0 <= i < |stream| && stream[i].Event? && stream[i].putOk ==> stream[i].landed
      modifies this
      ensures Valid() && activeModel == ActiveModel(ListOf(stream))
      ensures activeModel.Some? ==> forall r :: VotesOf(votes, r) == VotesDue(activeModel.value, ListOf(stream), r)
      ensures activeModel.None? ==> votes == map[]
      ensures old(acknowledged && !failed) && (forall i :: 0 <= i < |stream| && stream[i].Event? ==> stream[i].putOk) ==>
        acknowledged && !failed
      ensures acknowledged && !failed && HasVotes(votes) ==> Shown()
    {
      for i := 0 to |stream|
        invariant Valid() && inputs == ListOf(stream[..i])
        invariant old(acknowledged && !failed) && (forall j :: 0 <= j < i && stream[j].Event? ==> stream[j].putOk) ==>
          acknowledged && !failed
        invariant acknowledged && !failed && HasVotes(votes) ==> Shown()
      {
        assert stream[..i + 1][..i] == stream[..i];
        match stream[i]
        case Event(row, model, putOk, landed) =>
          var _ := OnEvent(row, model, putOk, landed);
        case Drop => OnDrop();
      }
      assert stream[..|stream|] == stream;
      if activeModel.Some? {
        VotesAreBallots();
      }
    }

    /** The last five answers to the windows a receiver has filled under the model. */
    function VotesDue(model: int, stream: List<Input>, r: int): seq<string> {
      Latest(Ballots(predict, model, AtLeastOne(windowSize), FeedsOf(stream, r)), VOTE_HISTORY)
    }

    lemma VotesAreBallots()
      requires Tracked() && activeModel.Some?
      ensures forall r :: VotesOf(votes, r) == VotesDue(activeModel.value, inputs, r)
    {
      forall r ensures VotesOf(votes, r) == VotesDue(activeModel.value, inputs, r) {
        assert Tracks(predict, AtLeastOne(windowSize), activeModel.value, BufferOf(buffers, r), VotesOf(votes, r),
                      Since(inputs, activeModel.value, r));
      }
    }
  }
}
