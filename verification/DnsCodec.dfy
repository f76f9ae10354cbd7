/**
 The name encoder, skipper and reader of the syslog client, on byte buffers.
 A `const uint8_t *packet` with its length is a byte sequence; the buffers that
 are written are arrays. A `size_t *next_offset` is an in-parameter and an
 out-parameter, because the source may leave it as it was.
 */
module DnsCodec {
  import opened Wrappers
  import opened DnsName

  // ------------------------------------------------------------ buffer contents

  /** The byte at `i` of a buffer that held `was` before `text` was written over it from `start` on. */
  function Expected(was: seq<byte>, start: nat, text: seq<byte>, i: nat): byte
    requires i < |was|
  {
    if start <= i < start + |text| then text[i - start] else was[i]
  }

  /** The first `n` bytes are as expected. Recursive, so that a caller sees one byte and not all of them. */
  ghost predicate PlacedUpTo(now: seq<byte>, was: seq<byte>, start: nat, text: seq<byte>, n: nat)
    requires n <= |now| == |was|
    decreases n
  {
    n == 0 || (now[n - 1] == Expected(was, start, text, n - 1) && PlacedUpTo(now, was, start, text, n - 1))
  }

  /** `text` has been written into the buffer from `start` on, and nothing else. */
  ghost predicate Placed(now: seq<byte>, was: seq<byte>, start: nat, text: seq<byte>) {
    start + |text| <= |now| == |was| && PlacedUpTo(now, was, start, text, |now|)
  }

  lemma {:induction false} PlacedUpToMeans(now: seq<byte>, was: seq<byte>, start: nat, text: seq<byte>, n: nat)
    requires n <= |now| == |was|
    ensures PlacedUpTo(now, was, start, text, n)
       <==> forall i :: 0 <= i < n ==> now[i] == Expected(was, start, text, i)
    decreases n
  {
    if n > 0 { PlacedUpToMeans(now, was, start, text, n - 1); }
  }

  lemma PlacedMeans(now: seq<byte>, was: seq<byte>, start: nat, text: seq<byte>)
    requires start + |text| <= |now| == |was|
    ensures Placed(now, was, start, text)
       <==> forall i :: 0 <= i < |now| ==> now[i] == Expected(was, start, text, i)
  {
    PlacedUpToMeans(now, was, start, text, |now|);
  }

  lemma PlacedNothing(was: seq<byte>, start: nat)
    requires start <= |was|
    ensures Placed(was, was, start, [])
  {
    PlacedMeans(was, was, start, []);
  }

  lemma PlacedSlices(now: seq<byte>, was: seq<byte>, start: nat, text: seq<byte>)
    requires Placed(now, was, start, text)
    ensures now == was[..start] + text + was[start + |text|..]
  {
    PlacedMeans(now, was, start, text);
  }

  // ----------------------------------------------------------------- encoder

  function AddLabel(front: Name, last: Label): Name {
    Join(front, Under(last, Root))
  }

  lemma {:induction false} JoinValid(front: Name, back: Name)
    ensures Valid(Join(front, back)) <==> Valid(front) && Valid(back)
  {
    if front.Under? { JoinValid(front.rest, back); }
  }

  lemma {:induction false} JoinAddLabel(front: Name, last: Label, rest: Name)
    ensures Join(AddLabel(front, last), rest) == Join(front, Under(last, rest))
    ensures Valid(AddLabel(front, last)) <==> Valid(front) && 1 <= |last| <= MAX_LABEL
  {
    JoinValid(front, Under(last, Root));
    if front.Under? { JoinAddLabel(front.rest, last, rest); }
  }

  lemma {:induction false} PrefixAddLabel(front: Name, last: Label)
    requires Valid(front) && 1 <= |last| <= MAX_LABEL
    ensures Valid(AddLabel(front, last))
    ensures Prefix(AddLabel(front, last)) == Prefix(front) + ([|last| as byte] + last)
  {
    if front.Under? {
      PrefixAddLabel(front.rest, last);
      assert [|front.first| as byte] + front.first + (Prefix(front.rest) + ([|last| as byte] + last))
          == [|front.first| as byte] + front.first + Prefix(front.rest) + ([|last| as byte] + last);
    }
  }

  lemma {:induction false} CodeIsPrefix(name: Name)
    requires Valid(name)
    ensures Encoded(name) == Prefix(name) + [0]
  {
    if name.Under? { CodeIsPrefix(name.rest); }
  }

  lemma {:induction false} LengthOfJoin(front: Name, back: Name)
    requires Valid(Join(front, back)) && Valid(front) && Valid(back)
    ensures |Encoded(Join(front, back))| == |Prefix(front)| + |Encoded(back)|
  {
    if front.Under? { LengthOfJoin(front.rest, back); }
  }

  lemma {:induction false} JoinRoot(front: Name)
    ensures Join(front, Root) == front
  {
    if front.Under? { JoinRoot(front.rest); }
  }

  /** The labels in `done` are encoded, those `text` spells from `at` on are not. */
  ghost predicate Halfway(text: seq<byte>, at: nat, done: Name) {
    && at <= |text| && Valid(done)
    && Join(done, Spelled(text, at)) == Spelled(text, 0)
  }

  lemma EncodeStep(text: seq<byte>, at: nat, d: nat, after: nat, done: Name, next: Label)
    requires Halfway(text, at, done) && at < |text| && d == NextDot(text, at)
    requires after == (if d < |text| then d + 1 else d) && next == text[at..d]
    ensures 1 <= |next| <= MAX_LABEL ==> Halfway(text, after, AddLabel(done, next))
    ensures !(1 <= |next| <= MAX_LABEL) ==> !Valid(Spelled(text, 0))
    ensures Valid(Spelled(text, 0)) ==> |Prefix(done)| + |next| + 2 <= |Encoded(Spelled(text, 0))|
  {
    var rest := Spelled(text, after);
    assert Spelled(text, at) == Under(next, rest);
    JoinAddLabel(done, next, rest);
    JoinValid(done, Under(next, rest));
    if Valid(Spelled(text, 0)) {
      LengthOfJoin(done, Under(next, rest));
    }
  }

  /** The length octet and the `memcpy` of one label. */
  method PutLabel(buf: array<byte>, start: nat, offset: nat, next: Label, ghost done: Name, ghost was: seq<byte>)
    requires Valid(done) && 1 <= |next| <= MAX_LABEL && offset == |Prefix(done)|
    requires start + offset + 1 + |next| <= buf.Length
    requires Placed(buf[..], was, start, Prefix(done))
    modifies buf
    ensures Valid(AddLabel(done, next)) && |Prefix(AddLabel(done, next))| == offset + 1 + |next|
    ensures Placed(buf[..], was, start, Prefix(AddLabel(done, next)))
  {
    PlacedMeans(buf[..], was, start, Prefix(done));
    buf[start + offset] := |next|;
    forall k | 0 <= k < |next| {
      buf[start + offset + 1 + k] := next[k];
    }
    PrefixAddLabel(done, next);
    PlacedMeans(buf[..], was, start, Prefix(done) + ([|next| as byte] + next));
  }

  method PutEnd(buf: array<byte>, at: nat, ghost start: nat, ghost text: seq<byte>, ghost was: seq<byte>)
    requires at == start + |text| < buf.Length && Placed(buf[..], was, start, text)
    modifies buf
    ensures Placed(buf[..], was, start, text + [0])
  {
    PlacedMeans(buf[..], was, start, text);
    buf[at] := 0;
    PlacedMeans(buf[..], was, start, text + [0]);
  }

  lemma EncodeEnd(text: seq<byte>, done: Name)
    requires Halfway(text, |text|, done)
    ensures done == Spelled(text, 0) && Encoded(done) == Prefix(done) + [0]
  {
    JoinRoot(done);
    CodeIsPrefix(done);
  }

  /** `strchr(label, '.')`, as an offset; the end of the string stands for NULL. */
  method StrChrDot(text: seq<byte>, at: nat) returns (dot: nat)
    requires at <= |text|
    ensures dot == NextDot(text, at)
  {
    dot := at;
    while dot < |text| && text[dot] != DOT
      invariant at <= dot <= |text|
      invariant forall k :: at <= k < dot ==> text[k] != DOT
    {
      dot := dot + 1;
    }
    assert IsNextDot(text, at, dot);
  }

  /** Whether the name can be encoded in `bufLen` bytes. */
  ghost predicate Fits(text: seq<byte>, bufLen: nat) {
    Valid(Spelled(text, 0)) && |Encoded(Spelled(text, 0))| <= bufLen
  }

  /** Encodes the label at `at`, which ends at `dot`; false when it is invalid or leaves no room. */
  method EncodeLabel(buf: array<byte>, start: nat, bufLen: nat, text: seq<byte>, at: nat, offset: nat,
                     ghost done: Name, ghost was: seq<byte>)
    returns (ok: bool, dot: nat, total: nat)
    requires start + bufLen <= buf.Length && at < |text|
    requires Halfway(text, at, done) && offset == |Prefix(done)| && Placed(buf[..], was, start, Prefix(done))
    modifies buf
    ensures dot == NextDot(text, at)
    ensures ok ==> var next := AddLabel(done, text[at..dot]);
                   Halfway(text, if dot < |text| then dot + 1 else dot, next) &&
                   total == |Prefix(next)| < bufLen && Placed(buf[..], was, start, Prefix(next))
    ensures !ok ==> !Fits(text, bufLen)
  {
    dot := StrChrDot(text, at);
    var labelLen := dot - at;
    EncodeStep(text, at, dot, if dot < |text| then dot + 1 else dot, done, text[at..dot]);
    if labelLen == 0 || labelLen > MAX_LABEL || offset + labelLen + 1 >= bufLen {
      return false, dot, offset;
    }
    PutLabel(buf, start, offset, text[at..dot], done, was);
    return true, dot, offset + 1 + labelLen;
  }

  /** Writes the name that `text` spells, a C string without its terminator, at `buf[start..start + bufLen]`. */
  method EncodeDnsName(buf: array<byte>, start: nat, bufLen: nat, text: seq<byte>) returns (r: int)
    requires start + bufLen <= buf.Length
    requires 0 !in text
    modifies buf
    ensures r == if Fits(text, bufLen) then |Encoded(Spelled(text, 0))| else -1
    ensures r >= 0 ==> Placed(buf[..], old(buf[..]), start, Encoded(Spelled(text, 0)))
  {
    var offset: nat := 0;
    var at: nat := 0;
    ghost var was, done := buf[..], Root;
    PlacedNothing(was, start);
    while at < |text|
      invariant Halfway(text, at, done)
      invariant offset == |Prefix(done)| && (offset > 0 ==> offset < bufLen)
      invariant Placed(buf[..], was, start, Prefix(done))
    {
      var ok, dot, total := EncodeLabel(buf, start, bufLen, text, at, offset, done, was);
      if !ok {
        return -1;
      }
      done := AddLabel(done, text[at..dot]);
      offset := total;
      if dot == |text| {
        at := dot;
        break;
      }
      at := dot + 1;
    }
    EncodeEnd(text, done);
    if offset >= bufLen {
      return -1;
    }
    PutEnd(buf, start + offset, start, Prefix(done), was);
    offset := offset + 1;
    return offset;
  }

  // ----------------------------------------------------------------- skipper

  method DnsSkipName(packet: seq<byte>, offset: nat, nextOffset: nat) returns (ok: bool, next: nat)
    ensures ok == NextOffset(packet, offset).Some?
    ensures next == if ok then NextOffset(packet, offset).value else nextOffset
  {
    var current := offset;
    var jumps := 0;
    next := nextOffset;
    while current < |packet|
      invariant NextOffset(packet, offset) == NextOffset(packet, current)
      invariant jumps == 0 && next == nextOffset
      decreases |packet| - current
    {
      var len := packet[current];
      if len == 0 {
        return true, current + 1;
      }
      if len >= 0xC0 {
        jumps := jumps + 1;
        if current + 1 >= |packet| || jumps > 16 {
          return false, next;
        }
        return true, current + 2;
      }
      if len >= 0x40 || current + 1 + len > |packet| {
        return false, next;
      }
      current := current + 1 + len;
    }
    return false, next;
  }

  // ------------------------------------------------------------------ reader

  /** What a reader with a budget and a buffer of `outLen` bytes makes of the name at `at`:
      its dotted text, or nothing when it is not reached in time or does not fit with its NUL. */
  predicate Readable(p: seq<byte>, at: nat, outLen: nat) {
    && NameAt(p, at, READ_BUDGET).Some?
    && |Dotted(NameAt(p, at, READ_BUDGET).value)| < outLen
  }

  function ReadText(p: seq<byte>, at: nat, outLen: nat): seq<byte>
    requires Readable(p, at, outLen)
  {
    Dotted(NameAt(p, at, READ_BUDGET).value)
  }

  /** The text once one more label is behind it. */
  function Extended(text: seq<byte>, piece: seq<byte>): seq<byte> {
    if text == [] then piece else text + [DOT] + piece
  }

  /** The text once a whole name is behind it. */
  function Finished(text: seq<byte>, name: Name): seq<byte> {
    if name.Root? then text else Extended(text, Dotted(name))
  }

  lemma FinishedStep(text: seq<byte>, first: Label, rest: Name)
    requires first != []
    ensures Finished(text, Under(first, rest)) == Finished(Extended(text, first), rest)
    ensures |text| <= |Finished(text, rest)|
  {
    assert text + [DOT] + first + [DOT] + Dotted(rest) == text + [DOT] + (first + [DOT] + Dotted(rest));
  }

  /** With `text` written and `steps` left, reading on from `at` ends with `goal`, or with nothing. */
  ghost predicate Heading(p: seq<byte>, at: nat, steps: nat, text: seq<byte>, found: bool, goal: seq<byte>) {
    && found == NameAt(p, at, steps).Some?
    && (found ==> goal == Finished(text, NameAt(p, at, steps).value))
  }

  lemma LabelRead(p: seq<byte>, at: nat, steps: nat, text: seq<byte>, piece: Label, after: nat, left: nat,
                  found: bool, goal: seq<byte>)
    requires Heading(p, at, steps, text, found, goal) && steps == left + 1
    requires piece != [] && TokenAt(p, at) == Text(piece) && after == at + 1 + |piece|
    ensures Heading(p, after, left, Extended(text, piece), found, goal)
    ensures found ==> |Extended(text, piece)| <= |goal|
  {
    if found {
      var rest := NameAt(p, after, left).value;
      assert NameAt(p, at, steps) == Some(Under(piece, rest));
      FinishedStep(text, piece, rest);
      FinishedStep(Extended(text, piece), piece, rest);
    }
  }

  lemma PointerRead(p: seq<byte>, at: nat, steps: nat, text: seq<byte>, target: nat, left: nat,
                    found: bool, goal: seq<byte>)
    requires Heading(p, at, steps, text, found, goal) && steps == left + 1 && TokenAt(p, at) == Pointer(target)
    ensures Heading(p, target, left, text, found, goal)
  {
  }

  lemma EndRead(p: seq<byte>, at: nat, steps: nat, text: seq<byte>, found: bool, goal: seq<byte>)
    requires Heading(p, at, steps, text, found, goal) && steps > 0 && TokenAt(p, at) == End
    ensures found && goal == text
  {
  }

  lemma NothingRead(p: seq<byte>, at: nat, steps: nat, text: seq<byte>, found: bool, goal: seq<byte>)
    requires Heading(p, at, steps, text, found, goal)
    requires steps == 0 || TokenAt(p, at) == Malformed
    ensures !found
  {
  }

  /** `next` is what the caller gave until the first pointer, then where the name's own bytes end. */
  ghost predicate Tracked(p: seq<byte>, offset: nat, current: nat, jumped: bool, next: nat, given: nat) {
    if jumped then NextOffset(p, offset) == Some(next)
    else next == given && NextOffset(p, offset) == NextOffset(p, current)
  }

  lemma TrackText(p: seq<byte>, offset: nat, current: nat, jumped: bool, next: nat, given: nat, after: nat)
    requires Tracked(p, offset, current, jumped, next, given)
    requires TokenAt(p, current).Text? && after == current + 1 + |TokenAt(p, current).text|
    ensures Tracked(p, offset, after, jumped, next, given)
  {
  }

  lemma TrackStop(p: seq<byte>, offset: nat, current: nat, jumped: bool, next: nat, given: nat)
    requires Tracked(p, offset, current, jumped, next, given)
    ensures TokenAt(p, current).End? ==> NextOffset(p, offset) == Some(if jumped then next else current + 1)
    ensures TokenAt(p, current).Pointer? ==> NextOffset(p, offset) == Some(if jumped then next else current + 2)
  {
  }

  /** The tests on one length octet and what it introduces. */
  method ReadToken(packet: seq<byte>, current: nat) returns (token: Token)
    requires current < |packet|
    ensures token == TokenAt(packet, current)
    ensures token.Text? ==> token.text != [] && current + 1 + |token.text| <= |packet|
  {
    var len := packet[current];
    if len == 0 {
      return End;
    }
    if len >= 0xC0 {
      if current + 1 >= |packet| {
        return Malformed;
      }
      return Pointer((len as int - 0xC0) * 256 + packet[current + 1]);
    }
    if len >= 0x40 || current + 1 + len > |packet| {
      return Malformed;
    }
    return Text(packet[current + 1..current + 1 + len]);
  }

  /** A dot if needed, then the label, if both fit in `outLen` bytes with room for the NUL. */
  method AppendLabel(out: array<byte>, outLen: nat, written: nat, piece: Label, ghost text: seq<byte>, ghost was: seq<byte>)
    returns (ok: bool, total: nat)
    requires piece != [] && outLen <= out.Length
    requires written == |text| < outLen && Placed(out[..], was, 0, text)
    modifies out
    ensures ok == (|Extended(text, piece)| < outLen)
    ensures ok ==> total == |Extended(text, piece)| && Placed(out[..], was, 0, Extended(text, piece))
  {
    PlacedMeans(out[..], was, 0, text);
    total := written;
    if total != 0 {
      if total + 1 >= outLen {
        return false, total;
      }
      out[total] := DOT;
      total := total + 1;
    }
    if total + |piece| >= outLen {
      return false, total;
    }
    forall k | 0 <= k < |piece| {
      out[total + k] := piece[k];
    }
    total := total + |piece|;
    PlacedMeans(out[..], was, 0, Extended(text, piece));
    return true, total;
  }

  /** Reads the name at `offset` into the first `outLen` bytes of `out`, NUL-terminated. */
  method DnsReadName(packet: seq<byte>, offset: nat, out: array<byte>, outLen: nat, nextOffset: nat)
    returns (ok: bool, next: nat)
    requires outLen <= out.Length
    modifies out
    ensures ok == Readable(packet, offset, outLen)
    ensures ok ==> Placed(out[..], old(out[..]), 0, ReadText(packet, offset, outLen) + [0])
    ensures ok ==> NextOffset(packet, offset) == Some(next)
    ensures !ok ==> next == nextOffset || NextOffset(packet, offset) == Some(next)
  {
    var current: nat := offset;
    var written: nat := 0;
    var jumped := false;
    next := nextOffset;
    if outLen == 0 {
      return false, next;
    }

    ghost var was, text: seq<byte> := out[..], [];
    ghost var found := NameAt(packet, offset, READ_BUDGET).Some?;
    ghost var goal := if found then Dotted(NameAt(packet, offset, READ_BUDGET).value) else [];
    var jumps := 0;
    PlacedNothing(was, 0);
    while current < |packet| && jumps < 32
      invariant 0 <= jumps <= 32
      invariant Heading(packet, current, 32 - jumps, text, found, goal)
      invariant written == |text| < outLen && Placed(out[..], was, 0, text)
      invariant Tracked(packet, offset, current, jumped, next, nextOffset)
      decreases 32 - jumps
    {
      ghost var steps, left := 32 - jumps, 32 - (jumps + 1);
      var token := ReadToken(packet, current);
      TrackStop(packet, offset, current, jumped, next, nextOffset);
      match token {
      case End =>
        EndRead(packet, current, steps, text, found, goal);
        if !jumped {
          next := current + 1;
        }
        PutEnd(out, written, 0, text, was);
        return true, next;

      case Malformed =>
        NothingRead(packet, current, steps, text, found, goal);
        return false, next;

      case Pointer(pointer) =>
        PointerRead(packet, current, steps, text, pointer, left, found, goal);
        if !jumped {
          next := current + 2;
          jumped := true;
        }
        if pointer >= |packet| {
          NothingRead(packet, pointer, left, text, found, goal);
          return false, next;
        }
        current := pointer;

      case Text(piece) =>
        var after := current + 1 + |piece|;
        LabelRead(packet, current, steps, text, piece, after, left, found, goal);
        TrackText(packet, offset, current, jumped, next, nextOffset, after);
        var fits, total := AppendLabel(out, outLen, written, piece, text, was);
        if !fits {
          return false, next;
        }
        text := Extended(text, piece);
        written := total;
        current := after;
      }
      jumps := jumps + 1;
    }
    NothingRead(packet, current, 32 - jumps, text, found, goal);
    return false, next;
  }

  // -------------------------------------------------------------- round trip

  lemma PlacedHolds(now: seq<byte>, was: seq<byte>, start: nat, code: seq<byte>)
    requires Placed(now, was, start, code)
    ensures Holds(now, start, code)
  {
    PlacedMeans(now, was, start, code);
  }

  /** What the encoder wrote reads back as the text it was given, less a trailing dot, exactly when the
      name has at most 31 labels and the text fits; the skipper then stands behind it. */
  lemma EncodeThenRead(p: seq<byte>, was: seq<byte>, start: nat, text: seq<byte>, outLen: nat)
    requires Valid(Spelled(text, 0)) && Placed(p, was, start, Encoded(Spelled(text, 0)))
    ensures Readable(p, start, outLen)
       <==> Count(Spelled(text, 0)) <= 31 && |WithoutTrailingDot(text)| < outLen
    ensures Readable(p, start, outLen) ==> ReadText(p, start, outLen) == WithoutTrailingDot(text)
    ensures NextOffset(p, start) == Some(start + |Encoded(Spelled(text, 0))|)
  {
    PlacedHolds(p, was, start, Encoded(Spelled(text, 0)));
    NameReadsBackExactly(p, start, text);
  }

  /** A compressed name reads as its labels above the name pointed to, exactly when steps and buffer suffice. */
  lemma CompressedIsReadable(p: seq<byte>, at: nat, front: Name, t: nat, tail: Name, outLen: nat)
    requires Valid(front) && Valid(tail) && t < 0x4000
    requires Holds(p, t, Encoded(tail)) && Holds(p, at, Prefix(front) + PointerTo(t))
    ensures Readable(p, at, outLen) <==> Count(front) + Count(tail) <= 30 && |Dotted(Join(front, tail))| < outLen
    ensures Readable(p, at, outLen) ==> ReadText(p, at, outLen) == Dotted(Join(front, tail))
  {
    CompressedReadsBack(p, at, front, t, tail, READ_BUDGET);
  }

  /** Reading means exactly what RFC 1035 says, as far as 32 steps and the buffer reach. */
  lemma ReadableMeans(p: seq<byte>, at: nat, outLen: nat, name: Name)
    ensures Readable(p, at, outLen) && ReadText(p, at, outLen) == Dotted(name) ==> |Dotted(name)| < outLen
    ensures Denotes(p, at, name) ==>
              (Readable(p, at, outLen) <==>
                 (exists steps: nat :: steps <= 32 && NameAt(p, at, steps).Some?) && |Dotted(name)| < outLen)
    ensures Denotes(p, at, name) && Readable(p, at, outLen) ==> ReadText(p, at, outLen) == Dotted(name)
    ensures Readable(p, at, outLen) ==> exists n :: Denotes(p, at, n)
  {
    if Readable(p, at, outLen) {
      assert Denotes(p, at, NameAt(p, at, 32).value);
    }
    if Denotes(p, at, name) {
      if steps: nat :| steps <= 32 && NameAt(p, at, steps).Some? {
        NameAtMonotone(p, at, steps, 32);
      }
      if NameAt(p, at, 32).Some? {
        MeaningIsUnique(p, at, name, NameAt(p, at, 32).value);
      }
    }
  }
}
