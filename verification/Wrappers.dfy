/** The values the other modules share. */
module Wrappers {
  datatype Option<+T> = None | Some(value: T)

  /** One octet of a datagram, of a C buffer or of a C string. */
  type byte = b: int | 0 <= b < 256

  /** A list that grows by appending. */
  datatype List<+T> = Nil | Snoc(init: List<T>, last: T)

  function Length<T>(l: List<T>): nat {
    if l.Nil? then 0 else Length(l.init) + 1
  }

  function Append<T>(a: List<T>, b: List<T>): List<T> {
    if b.Nil? then a else Snoc(Append(a, b.init), b.last)
  }

  function Add<T>(l: List<T>, o: Option<T>): List<T> {
    if o.None? then l else Snoc(l, o.value)
  }

  function Flat<T>(lists: List<List<T>>): List<T> {
    if lists.Nil? then Nil else Append(Flat(lists.init), lists.last)
  }

  function ToSeq<T>(l: List<T>): seq<T> {
    if l.Nil? then [] else ToSeq(l.init) + [l.last]
  }

  function ListOf<T>(s: seq<T>): List<T> {
    if s == [] then Nil else Snoc(ListOf(s[..|s| - 1]), s[|s| - 1])
  }

  /** A window or batch of a configured size: a test of the form `len(x) >= size` makes sizes below one behave as one. */
  function AtLeastOne(size: int): (n: nat)
    ensures n >= 1 && n >= size
  {
    if size < 1 then 1 else size
  }
}
