/**
 What a domain name in a DNS message means, and what the resolver's printer
 produces: sections 3.1 and 4.1.4 of RFC 1035, on byte sequences.

 The receiver accepts any compression pointer that lands inside the message,
 also one that points forward, so the meaning below does too.
 */
module DnsName {
  import opened Wrappers

  const DOT: byte := 46
  const MAX_LABEL: nat := 63
  const READ_BUDGET: nat := 32

  type Label = seq<byte>

  /** A domain name, label by label. */
  datatype Name = Root | Under(first: Label, rest: Name)

  function Count(name: Name): nat {
    if name.Root? then 0 else 1 + Count(name.rest)
  }

  predicate Valid(name: Name) {
    name.Under? ==> 1 <= |name.first| <= MAX_LABEL && Valid(name.rest)
  }

  // ---------------------------------------------------------------- messages

  /** What the octet at one offset introduces. */
  datatype Token =
    | End
    | Pointer(target: nat)
    | Text(text: Label)
    | Malformed

  /** The top two bits of the length octet select the kind: 11 is a pointer, 00 a label. */
  function TokenAt(p: seq<byte>, at: nat): Token {
    if at >= |p| then Malformed
    else
      var len := p[at];
      if len == 0 then End
      else if len >= 0xC0 then
        if at + 1 >= |p| then Malformed else Pointer((len as int - 0xC0) * 256 + p[at + 1])
      else if len >= 0x40 || at + 1 + len > |p| then Malformed
      else Text(p[at + 1..at + 1 + len])
  }

  /** The offset a reader looks at next, if the name goes on. */
  function Successor(p: seq<byte>, at: nat): Option<nat> {
    match TokenAt(p, at)
    case End => None
    case Malformed => None
    case Pointer(target) => Some(target)
    case Text(text) => Some(at + 1 + |text|)
  }

  /** The name at `at`, when its terminator is met within `steps` octets looked at. */
  function NameAt(p: seq<byte>, at: nat, steps: nat): Option<Name>
    decreases steps, p
  {
    if steps == 0 then None
    else
      match TokenAt(p, at)
      case End => Some(Root)
      case Malformed => None
      case Pointer(target) => NameAt(p, target, steps - 1)
      case Text(text) => Extend(text, NameAt(p, at + 1 + |text|, steps - 1))
  }

  function Extend(text: Label, rest: Option<Name>): Option<Name> {
    if rest.None? then None else Some(Under(text, rest.value))
  }

  /** Where the bytes of the name at `at` end in the message, not following a pointer. */
  function NextOffset(p: seq<byte>, at: nat): Option<nat>
    decreases |p| - at
  {
    match TokenAt(p, at)
    case End => Some(at + 1)
    case Malformed => None
    case Pointer(_) => Some(at + 2)
    case Text(text) => NextOffset(p, at + 1 + |text|)
  }

  lemma {:induction false} NextOffsetBounds(p: seq<byte>, at: nat)
    requires NextOffset(p, at).Some?
    ensures at < NextOffset(p, at).value <= |p|
    decreases |p| - at
  {
    match TokenAt(p, at)
    case End =>
    case Pointer(_) =>
    case Text(text) => NextOffsetBounds(p, at + 1 + |text|);
  }

  /** A larger budget never changes a name that was already read. */
  lemma {:induction false} NameAtMonotone(p: seq<byte>, at: nat, few: nat, many: nat)
    requires few <= many && NameAt(p, at, few).Some?
    ensures NameAt(p, at, many) == NameAt(p, at, few)
    decreases few
  {
    match TokenAt(p, at)
    case End =>
    case Pointer(target) => NameAtMonotone(p, target, few - 1, many - 1);
    case Text(text) => NameAtMonotone(p, at + 1 + |text|, few - 1, many - 1);
  }

  /** The meaning of RFC 1035: some finite number of steps reaches the terminator. */
  ghost predicate Denotes(p: seq<byte>, at: nat, name: Name) {
    exists steps: nat :: NameAt(p, at, steps) == Some(name)
  }

  lemma MeaningIsUnique(p: seq<byte>, at: nat, a: Name, b: Name)
    requires Denotes(p, at, a) && Denotes(p, at, b)
    ensures a == b
  {
    var m: nat :| NameAt(p, at, m) == Some(a);
    var n: nat :| NameAt(p, at, n) == Some(b);
    if m <= n { NameAtMonotone(p, at, m, n); } else { NameAtMonotone(p, at, n, m); }
  }

  /** Whatever a reader can read, a skipper can skip; the converse fails on dangling pointers. */
  lemma {:induction false} ReadableIsSkippable(p: seq<byte>, at: nat, steps: nat)
    requires NameAt(p, at, steps).Some?
    ensures NextOffset(p, at).Some?
    decreases steps
  {
    match TokenAt(p, at)
    case End =>
    case Pointer(_) =>
    case Text(text) => ReadableIsSkippable(p, at + 1 + |text|, steps - 1);
  }

  // ----------------------------------------------------------------- cycles

  /** The offset looked at after `n` steps. */
  function Visited(p: seq<byte>, at: nat, n: nat): Option<nat>
    decreases n
  {
    if n == 0 then Some(at)
    else
      match Successor(p, at)
      case None => None
      case Some(next) => Visited(p, next, n - 1)
  }

  lemma {:induction false} ReadableAlongTheWay(p: seq<byte>, at: nat, steps: nat, n: nat)
    requires NameAt(p, at, steps).Some? && Visited(p, at, n).Some?
    ensures n < steps && NameAt(p, Visited(p, at, n).value, steps - n).Some?
    decreases n
  {
    if n > 0 {
      ReadableAlongTheWay(p, Successor(p, at).value, steps - 1, n - 1);
    }
  }

  lemma {:induction false} CycleNeverEnds(p: seq<byte>, at: nat, n: nat, steps: nat)
    requires n > 0 && Visited(p, at, n) == Some(at)
    ensures NameAt(p, at, steps).None?
    decreases steps
  {
    if NameAt(p, at, steps).Some? {
      ReadableAlongTheWay(p, at, steps, n);
      CycleNeverEnds(p, at, n, steps - n);
    }
  }

  /** A name whose pointers lead back to an offset already looked at has no meaning at all. */
  lemma PointerCycleHasNoMeaning(p: seq<byte>, at: nat, i: nat, n: nat, name: Name)
    requires n > 0 && Visited(p, at, i).Some?
    requires Visited(p, Visited(p, at, i).value, n) == Visited(p, at, i)
    ensures !Denotes(p, at, name)
  {
    if Denotes(p, at, name) {
      var steps: nat :| NameAt(p, at, steps) == Some(name);
      ReadableAlongTheWay(p, at, steps, i);
      CycleNeverEnds(p, Visited(p, at, i).value, n, steps - i);
    }
  }

  // --------------------------------------------------------------- dotted text

  /** The labels joined by dots. */
  function Dotted(name: Name): seq<byte> {
    match name
    case Root => []
    case Under(first, Root) => first
    case Under(first, rest) => first + [DOT] + Dotted(rest)
  }

  /** `d` is the position of the first dot from `from` on, or the end of the text. */
  ghost predicate IsNextDot(text: seq<byte>, from: nat, d: nat) {
    && from <= d <= |text|
    && (d < |text| ==> text[d] == DOT)
    && forall k :: from <= k < d ==> text[k] != DOT
  }

  lemma {:induction false} NextDotExists(text: seq<byte>, from: nat)
    requires from <= |text|
    ensures exists d: nat :: IsNextDot(text, from, d)
    decreases |text| - from
  {
    if from == |text| || text[from] == DOT {
      assert IsNextDot(text, from, from);
    } else {
      NextDotExists(text, from + 1);
      var d: nat :| IsNextDot(text, from + 1, d);
      assert IsNextDot(text, from, d);
    }
  }

  ghost function NextDot(text: seq<byte>, from: nat): (d: nat)
    requires from <= |text|
    ensures IsNextDot(text, from, d)
  {
    NextDotExists(text, from);
    var d: nat :| IsNextDot(text, from, d);
    d
  }

  /** The name that dotted text spells from `from` on; one trailing dot adds no label. */
  ghost function Spelled(text: seq<byte>, from: nat): Name
    requires from <= |text|
    decreases |text| - from
  {
    if from == |text| then Root
    else
      var d := NextDot(text, from);
      Under(text[from..d], Spelled(text, if d < |text| then d + 1 else d))
  }

  /** Where the text ends when one trailing dot is left off. */
  function ShownEnd(text: seq<byte>): (e: nat)
    ensures e <= |text| && |text| <= e + 1
  {
    if |text| > 0 && text[|text| - 1] == DOT then |text| - 1 else |text|
  }

  function WithoutTrailingDot(text: seq<byte>): seq<byte> {
    text[..ShownEnd(text)]
  }

  lemma SliceAtDot(text: seq<byte>, from: nat, d: nat, e: nat)
    requires from <= d < e <= |text| && text[d] == DOT
    ensures text[from..e] == text[from..d] + [DOT] + text[d + 1..e]
  {
  }

  lemma DottedUnder(first: Label, rest: Name)
    ensures Dotted(Under(first, rest)) == if rest.Root? then first else first + [DOT] + Dotted(rest)
  {
  }

  /** Spelling is undone by joining with dots, up to the trailing dot. */
  lemma {:induction false} DottedOfSpelled(text: seq<byte>, from: nat)
    requires from < |text|
    ensures Dotted(Spelled(text, from)) == text[from..ShownEnd(text)]
    decreases |text| - from
  {
    var d := NextDot(text, from);
    if d + 1 >= |text| {
      DottedUnder(text[from..d], Root);
    } else {
      DottedOfSpelled(text, d + 1);
      DottedUnder(text[from..d], Spelled(text, d + 1));
      SliceAtDot(text, from, d, ShownEnd(text));
    }
  }

  // ----------------------------------------------------------------- encoding

  /** Section 3.1: each label behind its length, then the zero octet. */
  function Encoded(name: Name): (code: seq<byte>)
    requires Valid(name)
    ensures code != []
  {
    match name
    case Root => [0]
    case Under(first, rest) => [|first| as byte] + first + Encoded(rest)
  }

  /** The message holds the encoded name at `at`. */
  ghost predicate Holds(p: seq<byte>, at: nat, code: seq<byte>) {
    && at + |code| <= |p|
    && forall i :: 0 <= i < |code| ==> p[at + i] == code[i]
  }

  lemma HoldsParts(p: seq<byte>, at: nat, front: seq<byte>, back: seq<byte>)
    requires Holds(p, at, front + back)
    ensures Holds(p, at, front) && Holds(p, at + |front|, back)
    ensures p[at..at + |front|] == front
  {
    forall i | 0 <= i < |front| ensures p[at + i] == front[i] {
      assert (front + back)[i] == front[i];
    }
    forall i | 0 <= i < |back| ensures p[at + |front| + i] == back[i] {
      assert (front + back)[|front| + i] == back[i];
    }
  }

  /** A label behind its length octet is the text the reader sees there, and it looks behind it next. */
  lemma FirstLabel(p: seq<byte>, at: nat, first: Label, rest: seq<byte>)
    requires 1 <= |first| <= MAX_LABEL && Holds(p, at, [|first| as byte] + first + rest)
    ensures Holds(p, at + 1 + |first|, rest)
    ensures TokenAt(p, at) == Text(first)
  {
    var head := [|first| as byte];
    assert head + first + rest == head + (first + rest);
    HoldsParts(p, at, head, first + rest);
    HoldsParts(p, at + 1, first, rest);
    assert p[at] == p[at + 0] == head[0];
  }

  /** An encoded name anywhere in a message reads back in one step per label and one for the end, no fewer;
      a skipper ends behind it. */
  lemma {:induction false} EncodedReadsBack(p: seq<byte>, at: nat, name: Name, steps: nat)
    requires Valid(name) && Holds(p, at, Encoded(name))
    ensures NameAt(p, at, steps) == if Count(name) < steps then Some(name) else None
    ensures NextOffset(p, at) == Some(at + |Encoded(name)|)
    decreases name
  {
    match name
    case Root => assert p[at + 0] == Encoded(Root)[0];
    case Under(first, rest) =>
      FirstLabel(p, at, first, Encoded(rest));
      EncodedReadsBack(p, at + 1 + |first|, rest, if steps > 0 then steps - 1 else 0);
  }

  /** A whole name, encoded anywhere in a message, reads back as its text without the trailing dot
      exactly when it has at most 31 labels: the budget of 32 also pays for the terminator. */
  lemma NameReadsBackExactly(p: seq<byte>, at: nat, text: seq<byte>)
    requires Valid(Spelled(text, 0)) && Holds(p, at, Encoded(Spelled(text, 0)))
    ensures NameAt(p, at, READ_BUDGET).Some? <==> Count(Spelled(text, 0)) <= 31
    ensures NextOffset(p, at) == Some(at + |Encoded(Spelled(text, 0))|)
    ensures NameAt(p, at, READ_BUDGET).Some? ==>
              Dotted(NameAt(p, at, READ_BUDGET).value) == WithoutTrailingDot(text)
  {
    EncodedReadsBack(p, at, Spelled(text, 0), READ_BUDGET);
    if text != [] { DottedOfSpelled(text, 0); }
  }

  // -------------------------------------------------------------- compression

  /** `front` with the labels of `back` below it. */
  function Join(front: Name, back: Name): Name {
    if front.Root? then back else Under(front.first, Join(front.rest, back))
  }

  /** The code of the labels alone, before the zero octet. */
  function Prefix(name: Name): seq<byte>
    requires Valid(name)
  {
    match name
    case Root => []
    case Under(first, rest) => [|first| as byte] + first + Prefix(rest)
  }

  /** Section 4.1.4: the two octets of a pointer to offset `t`. */
  function PointerTo(t: nat): seq<byte>
    requires t < 0x4000
  {
    [0xC0 + t / 256, t % 256]
  }

  lemma PointerIsSeen(p: seq<byte>, at: nat, t: nat)
    requires t < 0x4000 && Holds(p, at, PointerTo(t))
    ensures TokenAt(p, at) == Pointer(t)
  {
    assert p[at + 0] == PointerTo(t)[0] && p[at + 1] == PointerTo(t)[1];
  }

  lemma BarePointer(p: seq<byte>, at: nat, t: nat)
    requires t < 0x4000 && Holds(p, at, Prefix(Root) + PointerTo(t))
    ensures TokenAt(p, at) == Pointer(t)
  {
    assert Prefix(Root) + PointerTo(t) == PointerTo(t);
    PointerIsSeen(p, at, t);
  }

  lemma CompressedLabel(p: seq<byte>, at: nat, first: Label, rest: Name, t: nat)
    requires Valid(Under(first, rest)) && t < 0x4000 && Holds(p, at, Prefix(Under(first, rest)) + PointerTo(t))
    ensures TokenAt(p, at) == Text(first)
    ensures Holds(p, at + 1 + |first|, Prefix(rest) + PointerTo(t))
    ensures |Prefix(Under(first, rest))| == 1 + |first| + |Prefix(rest)|
  {
    assert Prefix(Under(first, rest)) + PointerTo(t) == [|first| as byte] + first + (Prefix(rest) + PointerTo(t));
    FirstLabel(p, at, first, Prefix(rest) + PointerTo(t));
  }

  /** Labels followed by a pointer are skipped up to the two octets of the pointer, wherever it leads. */
  lemma {:induction false} CompressedIsSkipped(p: seq<byte>, at: nat, front: Name, t: nat)
    requires Valid(front) && t < 0x4000 && Holds(p, at, Prefix(front) + PointerTo(t))
    ensures NextOffset(p, at) == Some(at + |Prefix(front)| + 2)
    decreases front
  {
    match front
    case Root =>
      BarePointer(p, at, t);
    case Under(first, rest) =>
      CompressedLabel(p, at, first, rest, t);
      CompressedIsSkipped(p, at + 1 + |first|, rest, t);
  }

  /**
   A compressed name reads as its labels above the name its pointer leads to, in one step
   for each label, one for the pointer and one for the end, no fewer.
   */
  lemma {:induction false} CompressedReadsBack(p: seq<byte>, at: nat, front: Name, t: nat, tail: Name, steps: nat)
    requires Valid(front) && Valid(tail) && t < 0x4000
    requires Holds(p, t, Encoded(tail)) && Holds(p, at, Prefix(front) + PointerTo(t))
    ensures NameAt(p, at, steps) == if Count(front) + 1 + Count(tail) < steps then Some(Join(front, tail)) else None
    ensures NextOffset(p, at) == Some(at + |Prefix(front)| + 2)
    decreases front
  {
    CompressedIsSkipped(p, at, front, t);
    match front
    case Root =>
      BarePointer(p, at, t);
      EncodedReadsBack(p, t, tail, if steps > 0 then steps - 1 else 0);
    case Under(first, rest) =>
      CompressedLabel(p, at, first, rest, t);
      CompressedReadsBack(p, at + 1 + |first|, rest, t, tail, if steps > 0 then steps - 1 else 0);
  }

  /** The octets at `at` spell the labels of `front` and then a pointer to `t`. */
  ghost predicate PointsOn(p: seq<byte>, at: nat, front: Name, t: nat) {
    Valid(front) && t < 0x4000 && Holds(p, at, Prefix(front) + PointerTo(t))
  }

  /** The rest of the name, within fewer steps, where a pointer leads. */
  ghost predicate Continues(p: seq<byte>, at: nat, name: Name, steps: nat, front: Name, t: nat, left: nat) {
    && PointsOn(p, at, front, t) && left < steps
    && NameAt(p, t, left).Some? && name == Join(front, NameAt(p, t, left).value)
  }

  /** The octets at `at` spell the name in full, or labels of it and a pointer to the rest. */
  ghost predicate Written(p: seq<byte>, at: nat, name: Name, steps: nat) {
    && Valid(name)
    && (Holds(p, at, Encoded(name)) || exists front, t, left: nat :: Continues(p, at, name, steps, front, t, left))
  }

  /** Nothing else is read: a readable name is written out in full, or as labels and a pointer to a readable rest. */
  lemma {:induction false} ReadableIsWritten(p: seq<byte>, at: nat, steps: nat)
    requires NameAt(p, at, steps).Some?
    ensures Written(p, at, NameAt(p, at, steps).value, steps)
    decreases steps
  {
    match TokenAt(p, at)
    case End => EndIsWritten(p, at, steps);
    case Pointer(target) =>
      ReadableIsWritten(p, target, steps - 1);
      PointerIsWritten(p, at, target, steps);
    case Text(text) =>
      ReadableIsWritten(p, at + 1 + |text|, steps - 1);
      LabelAndRestWritten(p, at, text, NameAt(p, at + 1 + |text|, steps - 1).value, steps - 1);
  }

  lemma EndIsWritten(p: seq<byte>, at: nat, steps: nat)
    requires TokenAt(p, at) == End
    ensures Written(p, at, Root, steps)
  {
    assert Encoded(Root) == [0];
  }

  lemma PointerIsWritten(p: seq<byte>, at: nat, target: nat, steps: nat)
    requires TokenAt(p, at) == Pointer(target) && steps > 0
    requires NameAt(p, target, steps - 1).Some? && Valid(NameAt(p, target, steps - 1).value)
    ensures Written(p, at, NameAt(p, target, steps - 1).value, steps)
  {
    assert target < 0x4000 && Prefix(Root) + PointerTo(target) == PointerTo(target);
    assert PointsOn(p, at, Root, target);
    assert Continues(p, at, NameAt(p, target, steps - 1).value, steps, Root, target, steps - 1);
  }

  lemma LabelAndRestWritten(p: seq<byte>, at: nat, text: Label, rest: Name, steps: nat)
    requires TokenAt(p, at) == Text(text) && Written(p, at + 1 + |text|, rest, steps)
    ensures Written(p, at, Under(text, rest), steps + 1)
  {
    var after := at + 1 + |text|;
    if Holds(p, after, Encoded(rest)) {
      LabelHolds(p, at, text, Encoded(rest));
    } else {
      var front, t, left: nat :| Continues(p, after, rest, steps, front, t, left);
      LabelHolds(p, at, text, Prefix(front) + PointerTo(t));
      LabelContinues(p, at, text, rest, steps, front, t, left);
    }
  }

  lemma LabelContinues(p: seq<byte>, at: nat, text: Label, rest: Name, steps: nat, front: Name, t: nat, left: nat)
    requires 1 <= |text| <= MAX_LABEL && Valid(front) && t < 0x4000 && left < steps
    requires Holds(p, at, [|text| as byte] + text + (Prefix(front) + PointerTo(t)))
    requires Valid(rest) && NameAt(p, t, left).Some? && rest == Join(front, NameAt(p, t, left).value)
    ensures Written(p, at, Under(text, rest), steps + 1)
  {
    assert Prefix(Under(text, front)) + PointerTo(t) == [|text| as byte] + text + (Prefix(front) + PointerTo(t));
    assert Continues(p, at, Under(text, rest), steps + 1, Under(text, front), t, left);
  }

  lemma LabelHolds(p: seq<byte>, at: nat, text: Label, rest: seq<byte>)
    requires TokenAt(p, at) == Text(text) && Holds(p, at + 1 + |text|, rest)
    ensures 1 <= |text| <= MAX_LABEL && Holds(p, at, [|text| as byte] + text + rest)
  {
    var code := [|text| as byte] + text + rest;
    forall i | 0 <= i < |code| ensures p[at + i] == code[i] {
      if i > |text| {
        assert p[at + 1 + |text| + (i - 1 - |text|)] == rest[i - 1 - |text|];
      }
    }
  }

  /** The label abc at offset 12, and a pointer to it. */
  lemma PointerExample()
    ensures var p: seq<byte> := [0, 0, 0, 0, 0, 0, 0, 0, 0, 0, 0, 0, 3, 97, 98, 99, 0, 0xC0, 12];
            NameAt(p, 17, READ_BUDGET) == Some(Under([97, 98, 99], Root)) && NextOffset(p, 17) == Some(19)
  {
    var p: seq<byte> := [0, 0, 0, 0, 0, 0, 0, 0, 0, 0, 0, 0, 3, 97, 98, 99, 0, 0xC0, 12];
    var abc := Under([97, 98, 99], Root);
    assert Encoded(abc) == [3, 97, 98, 99, 0];
    assert Holds(p, 12, Encoded(abc));
    assert Prefix(Root) + PointerTo(12) == [0xC0, 12];
    assert Holds(p, 17, Prefix(Root) + PointerTo(12));
    CompressedReadsBack(p, 17, Root, 12, abc, READ_BUDGET);
  }
}
