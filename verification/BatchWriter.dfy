/**
 The aggregator's batch writer: packets leave the queue one by one, get the id of
 their receiver, and are flushed in batches, when a batch is full or the queue is idle.
 */
module BatchWriter {
  import opened Wrappers

  /** A parsed packet; `payload` stands for everything the writer only passes on. */
  datatype Packet = Packet(name: string, payload: nat)

  /** What a wait on the queue gives; `lookup` is what the database answers for the name, if asked. */
  datatype Wait = Got(packet: Packet, lookup: Option<int>) | Timeout

  datatype Row = Row(id: int, packet: Packet)

  /** The id of a receiver: what the first successful lookup of its name gave. */
  function IdOf(waits: List<Wait>, name: string): Option<int> {
    if waits.Nil? then None
    else if IdOf(waits.init, name).Some? then IdOf(waits.init, name)
    else if waits.last.Got? && waits.last.packet.name == name then waits.last.lookup
    else None
  }

  /** The rows of the packets whose receiver was known or looked up, in the order of the queue. */
  function Accepted(waits: List<Wait>): List<Row> {
    if waits.Nil? then Nil
    else if waits.last.Got? && IdOf(waits, waits.last.packet.name).Some? then
      Snoc(Accepted(waits.init), Row(IdOf(waits, waits.last.packet.name).value, waits.last.packet))
    else Accepted(waits.init)
  }

  predicate Sized(batches: List<List<Row>>, n: nat) {
    batches.Snoc? ==> 1 <= Length(batches.last) <= n && Sized(batches.init, n)
  }

  // ---------------------------------------------------------- the same, by position

  /** The j-th wait brings a packet of this name, and the lookup of the name would succeed. */
  predicate Answers(input: seq<Wait>, j: nat, name: string) {
    j < |input| && input[j].Got? && input[j].packet.name == name && input[j].lookup.Some?
  }

  /** The id is what the first successful lookup of the name gave, up to the i-th wait. */
  ghost predicate FirstAnswer(input: seq<Wait>, i: nat, name: string, id: int) {
    exists j: nat :: j <= i && Answers(input, j, name) && input[j].lookup == Some(id)
                     && forall m: nat :: m < j ==> !Answers(input, m, name)
  }

  /**
   The rows stand, in order, for the positions `at`: exactly those among the first `n` waits that
   bring a packet whose name was looked up with success there or before, each once.
   */
  ghost predicate Delivers(input: seq<Wait>, n: nat, rows: seq<Row>, at: seq<nat>)
    requires n <= |input|
  {
    && |at| == |rows|
    && (forall k :: 0 <= k < |at| ==>
          && at[k] < n && input[at[k]].Got? && rows[k].packet == input[at[k]].packet
          && FirstAnswer(input, at[k], rows[k].packet.name, rows[k].id))
    && (forall k, l :: 0 <= k < l < |at| ==> at[k] < at[l])
    && (forall i: nat :: i < n && input[i].Got? && (exists j: nat :: j <= i && Answers(input, j, input[i].packet.name)) ==> i in at)
  }

  lemma {:induction false} IdIsFirstAnswer(input: seq<Wait>, n: nat, name: string)
    requires n <= |input|
    ensures var id := IdOf(ListOf(input[..n]), name);
      && (id.None? ==> forall j: nat :: j < n ==> !Answers(input, j, name))
      && (id.Some? ==> n > 0 && FirstAnswer(input, n - 1, name, id.value))
  {
    if n > 0 {
      IdIsFirstAnswer(input, n - 1, name);
      assert input[..n][..n - 1] == input[..n - 1];
      if IdOf(ListOf(input[..n - 1]), name).None? && Answers(input, n - 1, name) {
        assert FirstAnswer(input, n - 1, name, input[n - 1].lookup.value);
      }
    }
  }

  lemma AcceptedGrows(input: seq<Wait>, n: nat)
    requires n < |input|
    ensures var before, now := ToSeq(Accepted(ListOf(input[..n]))), ToSeq(Accepted(ListOf(input[..n + 1])));
            var id := if input[n].Got? then IdOf(ListOf(input[..n + 1]), input[n].packet.name) else None;
            now == if id.Some? then before + [Row(id.value, input[n].packet)] else before
  {
    assert input[..n + 1][..n] == input[..n];
  }

  /** The accepted rows are those of the right positions. */
  lemma {:induction false} AcceptedByPosition(input: seq<Wait>, n: nat) returns (at: seq<nat>)
    requires n <= |input|
    ensures Delivers(input, n, ToSeq(Accepted(ListOf(input[..n]))), at)
  {
    at := [];
    if n > 0 {
      at := AcceptedByPosition(input, n - 1);
      AcceptedGrows(input, n - 1);
      if input[n - 1].Got? {
        IdIsFirstAnswer(input, n, input[n - 1].packet.name);
        if IdOf(ListOf(input[..n]), input[n - 1].packet.name).Some? {
          at := at + [n - 1];
        }
      }
    }
  }

  class Writer {
    const batchSize: int
    var cache: map<string, int>
    var batch: List<Row>

    /** The batches handed to the database, whether or not it took them, and the waits so far. */
    ghost var flushed: List<List<Row>>
    ghost var waits: List<Wait>

    /** Nothing accepted is lost, repeated or out of order. */
    ghost predicate Valid()
      reads this
    {
      && Append(Flat(flushed), batch) == Accepted(waits)
      && Sized(flushed, AtLeastOne(batchSize))
      && Length(batch) < AtLeastOne(batchSize)
      && forall name :: IdOf(waits, name) == if name in cache then Some(cache[name]) else None
    }

    constructor (batchSize: int)
      ensures Valid() && this.batchSize == batchSize && waits == Nil
    {
      this.batchSize, cache, batch, flushed, waits := batchSize, map[], Nil, Nil, Nil;
    }

    method Flush()
      requires batch.Snoc? && Length(batch) <= AtLeastOne(batchSize) && Sized(flushed, AtLeastOne(batchSize))
      requires Append(Flat(flushed), batch) == Accepted(waits)
      requires forall name :: IdOf(waits, name) == if name in cache then Some(cache[name]) else None
      modifies `batch, `flushed
      ensures Valid() && batch == Nil && flushed == Snoc(old(flushed), old(batch))
    {
      flushed := Snoc(flushed, batch);
      batch := Nil;
    }

    method OnTimeout()
      requires Valid()
      modifies `batch, `flushed, `waits
      ensures Valid() && waits == Snoc(old(waits), Timeout) && batch == Nil
      ensures flushed == if old(batch).Snoc? then Snoc(old(flushed), old(batch)) else old(flushed)
    {
      waits := Snoc(waits, Timeout);
      if batch.Snoc? {
        Flush();
      }
    }

    method OnPacket(packet: Packet, lookup: Option<int>)
      requires Valid()
      modifies this
      ensures Valid() && waits == Snoc(old(waits), Got(packet, lookup))
      ensures packet.name !in old(cache) && lookup.None? ==> batch == old(batch) && flushed == old(flushed)
      ensures packet.name in old(cache) || lookup.Some? ==>
        var row := Row(if packet.name in old(cache) then old(cache)[packet.name] else lookup.value, packet);
        if Length(old(batch)) + 1 >= batchSize then batch == Nil && flushed == Snoc(old(flushed), Snoc(old(batch), row))
        else batch == Snoc(old(batch), row) && flushed == old(flushed)
    {
      waits := Snoc(waits, Got(packet, lookup));
      if packet.name !in cache {
        if lookup.None? {
          return;
        }
        cache := cache[packet.name := lookup.value];
      }
      batch := Snoc(batch, Row(cache[packet.name], packet));
      if Length(batch) >= batchSize {
        Flush();
      }
    }

    /** The last flush, when the writer is cancelled while it waits. */
    method OnCancelled()
      requires Valid()
      modifies `batch, `flushed
      ensures Valid() && Flat(flushed) == Accepted(waits)
    {
      if batch.Snoc? {
        Flush();
      }
    }

    /** A whole run, from the start to the cancellation. */
    method Run(input: seq<Wait>)
      requires Valid() && waits == Nil
      modifies this
      ensures exists at :: Delivers(input, |input|, ToSeq(Flat(flushed)), at)
      ensures Flat(flushed) == Accepted(ListOf(input)) && Sized(flushed, AtLeastOne(batchSize))
    {
      for i := 0 to |input|
        invariant Valid() && waits == ListOf(input[..i])
      {
        assert input[..i + 1][..i] == input[..i];
        match input[i]
        case Got(packet, lookup) => OnPacket(packet, lookup);
        case Timeout => OnTimeout();
      }
      assert input[..|input|] == input;
      OnCancelled();
      ghost var at := AcceptedByPosition(input, |input|);
    }
  }

  /** Every flushed row carries the id that was looked up for its own receiver's name. */
  predicate Owned(rows: List<Row>, waits: List<Wait>) {
    rows.Snoc? ==> IdOf(waits, rows.last.packet.name) == Some(rows.last.id) && Owned(rows.init, waits)
  }

  lemma {:induction false} OwnedLater(rows: List<Row>, waits: List<Wait>, w: Wait)
    requires Owned(rows, waits)
    ensures Owned(rows, Snoc(waits, w))
  {
    if rows.Snoc? {
      OwnedLater(rows.init, waits, w);
    }
  }

  lemma {:induction false} AcceptedAreOwned(waits: List<Wait>)
    ensures Owned(Accepted(waits), waits)
  {
    if waits.Snoc? {
      AcceptedAreOwned(waits.init);
      OwnedLater(Accepted(waits.init), waits.init, waits.last);
    }
  }
}
