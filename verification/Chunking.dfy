/** A list cut from its start into chunks of one size; what does not fill a chunk is left over. */
module Chunking {
  import opened Wrappers

  /** What is left over at the end. */
  function Unfinished<T>(all: List<T>, size: nat): List<T> {
    if all.Nil? then Nil
    else
      var fed := Snoc(Unfinished(all.init, size), all.last);
      if Length(fed) >= size then Nil else fed
  }

  /** The chunk that the last element fills, if it fills one. */
  function Completed<T>(all: List<T>, size: nat): Option<List<T>> {
    if all.Nil? then None
    else
      var fed := Snoc(Unfinished(all.init, size), all.last);
      if Length(fed) >= size then Some(fed) else None
  }

  function Chunks<T>(all: List<T>, size: nat): List<List<T>> {
    if all.Nil? then Nil
    else
      match Completed(all, size)
      case None => Chunks(all.init, size)
      case Some(chunk) => Snoc(Chunks(all.init, size), chunk)
  }

  predicate AllOfSize<T>(chunks: List<List<T>>, size: nat) {
    chunks.Snoc? ==> Length(chunks.last) == size && AllOfSize(chunks.init, size)
  }

  /** The chunks, side by side, and fewer than `size` elements behind them, are the list. */
  lemma {:induction false} ChunksFill<T>(all: List<T>, size: nat)
    requires size >= 1
    ensures Append(Flat(Chunks(all, size)), Unfinished(all, size)) == all
    ensures AllOfSize(Chunks(all, size), size) && Length(Unfinished(all, size)) < size
  {
    if all.Snoc? {
      ChunksFill(all.init, size);
    }
  }
}
