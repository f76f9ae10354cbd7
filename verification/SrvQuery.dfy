/**
 The SRV lookup of the syslog client: the query it sends, the walk over the
 question and answer sections of a response, and the record it picks. The
 choice is the firmware's own: lowest priority, then highest weight, then the
 first seen; RFC 2782 would draw at random among equal priorities.
 */
module SrvQuery {
  import opened Wrappers
  import opened DnsName
  import opened DnsCodec

  const PACKET_MAX: nat := 512
  const HEADER_SIZE: nat := 12
  const TYPE_SRV: nat := 33
  const CLASS_IN: nat := 1
  const FLAG_RD: nat := 0x0100
  const TARGET_SIZE: nat := 256

  // ---------------------------------------------------------------- C strings

  /** The C string a buffer holds. */
  function CStr(s: seq<byte>): seq<byte> {
    if s == [] || s[0] == 0 then [] else [s[0]] + CStr(s[1..])
  }

  lemma {:induction false} CStrEndsAt(s: seq<byte>, n: nat)
    requires n < |s| && s[n] == 0 && forall k :: 0 <= k < n ==> s[k] != 0
    ensures CStr(s) == s[..n]
    decreases n
  {
    if n > 0 {
      CStrEndsAt(s[1..], n - 1);
      assert s[..n] == [s[0]] + s[1..][..n - 1];
    }
  }

  lemma {:induction false} CStrOfTerminated(text: seq<byte>, after: seq<byte>)
    ensures CStr(text + [0] + after) == CStr(text)
    decreases |text|
  {
    if text == [] {
      assert (text + [0] + after)[0] == 0;
    } else {
      assert (text + [0] + after)[1..] == text[1..] + [0] + after;
      CStrOfTerminated(text[1..], after);
    }
  }

  function TrimDots(s: seq<byte>): (r: seq<byte>)
    ensures r <= s && (r == [] || r[|r| - 1] != DOT)
    ensures forall k :: |r| <= k < |s| ==> s[k] == DOT
  {
    if s != [] && s[|s| - 1] == DOT then TrimDots(s[..|s| - 1]) else s
  }

  method StrLen(value: array<byte>) returns (len: nat)
    requires 0 in value[..]
    ensures len < value.Length && value[len] == 0 && forall k :: 0 <= k < len ==> value[k] != 0
  {
    var at :| 0 <= at < value.Length && value[at] == 0;
    len := 0;
    while value[len] != 0
      invariant 0 <= len <= at
      invariant forall k :: 0 <= k < len ==> value[k] != 0
      decreases at - len
    {
      len := len + 1;
    }
  }

  /** Strips every trailing dot of the C string in place. */
  method TrimTrailingDot(value: array<byte>)
    requires 0 in value[..]
    modifies value
    ensures 0 in value[..]
    ensures CStr(value[..]) == TrimDots(old(CStr(value[..])))
  {
    var len := StrLen(value);
    CStrEndsAt(value[..], len);
    ghost var text := value[..len];
    assert value[len] in value[..];
    while len > 0 && value[len - 1] == DOT
      invariant 0 <= len < value.Length && value[len] == 0
      invariant forall k :: 0 <= k < len ==> value[k] != 0
      invariant TrimDots(value[..len]) == TrimDots(text)
      invariant value[len] in value[..]
    {
      assert value[..len][..len - 1] == value[..len - 1];
      value[len - 1] := 0;
      len := len - 1;
      assert value[len] in value[..];
    }
    CStrEndsAt(value[..], len);
  }

  // ------------------------------------------------------------------ records

  function Be16(p: seq<byte>, at: nat): (v: nat)
    requires at + 2 <= |p|
    ensures v < 0x1_0000
  {
    p[at] as nat * 256 + p[at + 1]
  }

  /** One resource record: its type and class, and where its data lies. */
  datatype Record = Record(kind: nat, class_: nat, start: nat, size: nat) {
    function After(): nat { start + size }
  }

  /** The record whose name starts at `at`, if name, fixed fields and data lie inside the message. */
  function RecordAt(p: seq<byte>, at: nat): Option<Record> {
    match NextOffset(p, at)
    case None => None
    case Some(o) =>
      if o + 10 > |p| || o + 10 + Be16(p, o + 8) > |p| then None
      else Some(Record(Be16(p, o), Be16(p, o + 2), o + 10, Be16(p, o + 8)))
  }

  lemma RecordBounds(p: seq<byte>, at: nat)
    requires RecordAt(p, at).Some?
    ensures at < RecordAt(p, at).value.start <= RecordAt(p, at).value.After() <= |p|
  {
    NextOffsetBounds(p, at);
  }

  function AfterQuestions(p: seq<byte>, at: nat, n: nat): Option<nat>
    decreases n
  {
    if n == 0 then Some(at)
    else
      match NextOffset(p, at)
      case None => None
      case Some(o) => if o + 4 > |p| then None else AfterQuestions(p, o + 4, n - 1)
  }

  /** How many of the `n` announced records are there; None when one of them is malformed. */
  function Scanned(p: seq<byte>, at: nat, n: nat): Option<nat>
    decreases n
  {
    if n == 0 || at >= |p| then Some(0)
    else
      match RecordAt(p, at)
      case None => None
      case Some(r) => OneMore(Scanned(p, r.After(), n - 1))
  }

  function OneMore(n: Option<nat>): Option<nat> {
    if n.None? then None else Some(n.value + 1)
  }

  /** The offset of the k-th record after `at`, when the ones before it are well-formed. */
  function RecordOffset(p: seq<byte>, at: nat, k: nat): Option<nat>
    decreases k
  {
    if k == 0 then Some(at)
    else
      match RecordAt(p, at)
      case None => None
      case Some(r) => RecordOffset(p, r.After(), k - 1)
  }

  lemma {:induction false} NextRecordOffset(p: seq<byte>, at: nat, k: nat)
    requires RecordOffset(p, at, k).Some? && RecordAt(p, RecordOffset(p, at, k).value).Some?
    ensures RecordOffset(p, at, k + 1) == Some(RecordAt(p, RecordOffset(p, at, k).value).value.After())
    decreases k
  {
    if k > 0 { NextRecordOffset(p, RecordAt(p, at).value.After(), k - 1); }
  }

  /** The walk always moves forward and never leaves the message. */
  lemma {:induction false} RecordsAdvance(p: seq<byte>, at: nat, j: nat, k: nat)
    requires at <= |p| && j < k && RecordOffset(p, at, k).Some?
    ensures RecordOffset(p, at, j).Some?
    ensures RecordOffset(p, at, j).value < RecordOffset(p, at, k).value <= |p|
    decreases k
  {
    RecordBounds(p, at);
    var next := RecordAt(p, at).value.After();
    if j > 0 {
      RecordsAdvance(p, next, j - 1, k - 1);
    } else if k > 1 {
      RecordsAdvance(p, next, 0, k - 1);
    }
  }

  // ------------------------------------------------------------------- choice

  datatype Srv = Srv(priority: nat, weight: nat, port: nat, target: seq<byte>)

  predicate Better(a: Srv, b: Srv) {
    a.priority < b.priority || (a.priority == b.priority && a.weight > b.weight)
  }

  /** The host name in a record's data, as the C string the firmware keeps. */
  function TargetOf(p: seq<byte>, at: nat): Option<seq<byte>> {
    if Readable(p, at, TARGET_SIZE) then Some(TrimDots(CStr(ReadText(p, at, TARGET_SIZE)))) else None
  }

  lemma {:induction false} CStrIsPrefix(s: seq<byte>)
    ensures CStr(s) <= s && 0 !in CStr(s)
    ensures 0 !in s ==> CStr(s) == s
  {
    if s != [] && s[0] != 0 {
      CStrIsPrefix(s[1..]);
      assert s == [s[0]] + s[1..];
    }
  }

  /** The target is the whole name exactly when the name holds no NUL byte and does not end in a dot. */
  lemma TargetIsTheName(p: seq<byte>, at: nat)
    requires Readable(p, at, TARGET_SIZE)
    ensures var text := ReadText(p, at, TARGET_SIZE);
            TargetOf(p, at) == Some(text) <==> 0 !in text && (text == [] || text[|text| - 1] != DOT)
  {
    var text := ReadText(p, at, TARGET_SIZE);
    CStrIsPrefix(text);
    if TargetOf(p, at) == Some(text) {
      assert TrimDots(CStr(text)) <= CStr(text) <= text;
      assert CStr(text) == text;
    }
  }

  /** A message whose name is one label of the bytes a, NUL and b: the target is only a. */
  lemma NulCutsTheTarget()
    ensures var p: seq<byte> := [3, 97, 0, 98, 0];
            Readable(p, 0, TARGET_SIZE) && ReadText(p, 0, TARGET_SIZE) == [97, 0, 98] && TargetOf(p, 0) == Some([97])
  {
    var p: seq<byte> := [3, 97, 0, 98, 0];
    var text: seq<byte> := [97, 0, 98];
    assert TokenAt(p, 0) == Text(p[1..4]) && p[1..4] == text;
    assert TokenAt(p, 4) == End;
    assert NameAt(p, 4, 31) == Some(Root);
    assert NameAt(p, 0, 32) == Some(Under(text, Root));
    CStrEndsAt(text, 1);
    assert text[..1] == [97];
    assert TrimDots([97]) == [97];
  }

  /** What a record offers: an SRV record of class IN whose target decodes. */
  function Offer(p: seq<byte>, r: Record): Option<Srv>
    requires r.After() <= |p|
  {
    if r.kind == TYPE_SRV && r.class_ == CLASS_IN && r.size >= 7 && TargetOf(p, r.start + 6).Some? then
      Some(Srv(Be16(p, r.start), Be16(p, r.start + 2), Be16(p, r.start + 4), TargetOf(p, r.start + 6).value))
    else None
  }

  /** What the k-th record of the section at `at` offers. */
  function OfferAt(p: seq<byte>, at: nat, k: nat): Option<Srv> {
    match RecordOffset(p, at, k)
    case None => None
    case Some(o) =>
      match RecordAt(p, o)
      case None => None
      case Some(r) => RecordBounds(p, o); Offer(p, r)
  }

  /** What the first `n` records of the section at `at` offer, in order. */
  function Offers(p: seq<byte>, at: nat, n: nat): (offers: seq<Option<Srv>>)
    ensures |offers| == n
  {
    if n == 0 then [] else Offers(p, at, n - 1) + [OfferAt(p, at, n - 1)]
  }

  /** Offer number `i` is the first of those that no other beats. */
  ghost predicate IsBest(offers: seq<Option<Srv>>, i: nat) {
    && i < |offers| && offers[i].Some?
    && (forall j :: 0 <= j < |offers| && offers[j].Some? ==> !Better(offers[j].value, offers[i].value))
    && (forall j :: 0 <= j < i && offers[j].Some? ==> Better(offers[i].value, offers[j].value))
  }

  lemma BestIsUnique(offers: seq<Option<Srv>>, i: nat, j: nat)
    requires IsBest(offers, i) && IsBest(offers, j)
    ensures i == j
  {
    assert !(i < j) && !(j < i);
  }

  /** `*best` and `*have_best`, which the fold updates through pointers. */
  class BestRecord {
    var have: bool
    var record: Srv

    constructor ()
      ensures !have
    {
      have := false;
      record := Srv(0, 0, 0, []);
    }

    method Choose(candidate: Srv) returns (taken: bool)
      modifies this
      ensures taken == (!old(have) || Better(candidate, old(record)))
      ensures have && record == if taken then candidate else old(record)
    {
      if !have {
        record := candidate;
        have := true;
        return true;
      }
      if candidate.priority < record.priority {
        record := candidate;
        return true;
      }
      if candidate.priority == record.priority && candidate.weight > record.weight {
        record := candidate;
        return true;
      }
      return false;
    }
  }

  /** What the fold holds after some offers: the best of them, if there is any. */
  ghost predicate Holding(offers: seq<Option<Srv>>, have: bool, record: Srv) {
    if have then exists i: nat :: IsBest(offers, i) && offers[i] == Some(record)
    else forall j :: 0 <= j < |offers| ==> offers[j].None?
  }

  predicate Takes(offer: Option<Srv>, have: bool, record: Srv) {
    offer.Some? && (!have || Better(offer.value, record))
  }

  lemma HoldAfter(offers: seq<Option<Srv>>, offer: Option<Srv>, have: bool, record: Srv, record': Srv)
    requires Holding(offers, have, record)
    requires record' == if Takes(offer, have, record) then offer.value else record
    ensures Holding(offers + [offer], have || offer.Some?, record')
  {
    if have || offer.Some? {
      var i: nat;
      if Takes(offer, have, record) {
        i := |offers|;
      } else {
        i :| IsBest(offers, i) && offers[i] == Some(record);
      }
      assert IsBest(offers + [offer], i);
    }
  }

  /** A record's target, read into a zeroed buffer and trimmed there. */
  method ReadTarget(response: seq<byte>, at: nat) returns (target: Option<seq<byte>>)
    ensures target == TargetOf(response, at)
  {
    var buffer := new byte[TARGET_SIZE](_ => 0);
    ghost var was := buffer[..];
    var ok, _ := DnsReadName(response, at, buffer, TARGET_SIZE, 0);
    if !ok {
      return None;
    }
    ghost var text := ReadText(response, at, TARGET_SIZE);
    ReadBuffer(buffer[..], was, text);
    TrimTrailingDot(buffer);
    return Some(CStr(buffer[..]));
  }

  lemma ReadBuffer(now: seq<byte>, was: seq<byte>, text: seq<byte>)
    requires Placed(now, was, 0, text + [0])
    ensures 0 in now && CStr(now) == CStr(text)
  {
    PlacedSlices(now, was, 0, text + [0]);
    var after := was[|text| + 1..];
    assert now == text + [0] + after;
    assert now[|text|] == 0;
    CStrOfTerminated(text, after);
  }

  /** Reads one record's data and feeds it to the fold. */
  method Consider(response: seq<byte>, r: Record, best: BestRecord)
    requires r.After() <= |response|
    modifies best
    ensures best.have == (old(best.have) || Offer(response, r).Some?)
    ensures best.record == if Takes(Offer(response, r), old(best.have), old(best.record))
                           then Offer(response, r).value else old(best.record)
  {
    if r.kind == TYPE_SRV && r.class_ == CLASS_IN && r.size >= 7 {
      var priority := Be16(response, r.start);
      var weight := Be16(response, r.start + 2);
      var port := Be16(response, r.start + 4);
      var target := ReadTarget(response, r.start + 6);
      if target.Some? {
        var taken := best.Choose(Srv(priority, weight, port, target.value));
      }
    }
  }

  /** Name, fixed fields and the length check of one record. */
  method ReadRecord(response: seq<byte>, offset: nat) returns (r: Option<Record>)
    ensures r == RecordAt(response, offset)
    ensures r.Some? ==> offset < r.value.start <= r.value.After() <= |response|
  {
    var skipped, next := DnsSkipName(response, offset, offset);
    if !skipped || next + 10 > |response| {
      return None;
    }
    NextOffsetBounds(response, offset);
    var kind := Be16(response, next);
    var class_ := Be16(response, next + 2);
    var size := Be16(response, next + 8);
    if next + 10 + size > |response| {
      return None;
    }
    return Some(Record(kind, class_, next + 10, size));
  }

  /** The walk over one response: `qdcount` questions, then the answers. */
  method SkipQuestions(response: seq<byte>, count: nat) returns (ok: bool, offset: nat)
    requires |response| >= HEADER_SIZE
    ensures ok == AfterQuestions(response, HEADER_SIZE, count).Some?
    ensures ok ==> AfterQuestions(response, HEADER_SIZE, count) == Some(offset) && offset <= |response|
  {
    offset := HEADER_SIZE;
    var q := 0;
    while q < count
      invariant 0 <= q <= count && offset <= |response|
      invariant AfterQuestions(response, HEADER_SIZE, count) == AfterQuestions(response, offset, count - q)
    {
      var skipped, next := DnsSkipName(response, offset, offset);
      if !skipped || next + 4 > |response| {
        return false, offset;
      }
      offset := next + 4;
      q := q + 1;
    }
    return true, offset;
  }

  /** With `a` records behind it and the next at `offset`, the walk will end with `total`. */
  ghost predicate Walking(p: seq<byte>, start: nat, a: nat, offset: nat, left: nat, total: Option<nat>) {
    && RecordOffset(p, start, a) == Some(offset)
    && match Scanned(p, offset, left) case None => total == None case Some(n) => total == Some(a + n)
  }

  lemma WalkOn(p: seq<byte>, start: nat, a: nat, offset: nat, left: nat, total: Option<nat>, r: Option<Record>)
    requires Walking(p, start, a, offset, left, total) && left > 0 && offset < |p| && r == RecordAt(p, offset)
    ensures r.None? ==> total == None
    ensures r.Some? ==> Walking(p, start, a + 1, r.value.After(), left - 1, total)
    ensures r.Some? ==> r.value.After() <= |p| && OfferAt(p, start, a) == Offer(p, r.value)
  {
    ScannedStep(p, offset, left, r);
    if r.Some? {
      RecordBounds(p, offset);
      NextRecordOffset(p, start, a);
    }
  }

  lemma ScannedStep(p: seq<byte>, offset: nat, left: nat, r: Option<Record>)
    requires left > 0 && offset < |p| && r == RecordAt(p, offset)
    ensures r.None? ==> Scanned(p, offset, left) == None
    ensures r.Some? ==> Scanned(p, offset, left) == OneMore(Scanned(p, r.value.After(), left - 1))
  {
  }

  lemma WalkDone(p: seq<byte>, start: nat, a: nat, offset: nat, left: nat, total: Option<nat>)
    requires Walking(p, start, a, offset, left, total) && (left == 0 || offset >= |p|)
    ensures total == Some(a)
  {
  }

  /** One record of the answer section: its end, unless it is malformed. */
  method ScanRecord(response: seq<byte>, start: nat, ghost a: nat, offset: nat, ghost left: nat,
                    ghost total: Option<nat>, best: BestRecord)
    returns (ok: bool, after: nat)
    requires Walking(response, start, a, offset, left, total) && left > 0 && offset < |response|
    requires Holding(Offers(response, start, a), best.have, best.record)
    modifies best
    ensures !ok ==> total == None
    ensures ok ==> after <= |response| && Walking(response, start, a + 1, after, left - 1, total)
    ensures ok ==> Holding(Offers(response, start, a + 1), best.have, best.record)
  {
    var r := ReadRecord(response, offset);
    WalkOn(response, start, a, offset, left, total, r);
    if r.None? {
      return false, offset;
    }
    ghost var have, record := best.have, best.record;
    Consider(response, r.value, best);
    HoldAfter(Offers(response, start, a), OfferAt(response, start, a), have, record, best.record);
    return true, r.value.After();
  }

  /** The answer section: false when a record is malformed; otherwise `best` holds the choice. */
  method ScanAnswers(response: seq<byte>, start: nat, count: nat, best: BestRecord) returns (ok: bool)
    requires start <= |response| && !best.have
    modifies best
    ensures ok == Scanned(response, start, count).Some?
    ensures ok ==> Holding(Offers(response, start, Scanned(response, start, count).value), best.have, best.record)
  {
    var offset: nat := start;
    var a: nat := 0;
    ghost var total := Scanned(response, start, count);
    while a < count && offset < |response|
      invariant 0 <= a <= count && offset <= |response|
      invariant Walking(response, start, a, offset, count - a, total)
      invariant Holding(Offers(response, start, a), best.have, best.record)
    {
      ok, offset := ScanRecord(response, start, a, offset, count - a, total, best);
      if !ok {
        return false;
      }
      a := a + 1;
    }
    WalkDone(response, start, a, offset, count - a, total);
    return true;
  }

  /** What makes a response usable, and what it then says. */
  ghost predicate Accepted(p: seq<byte>, queryId: nat, srv: Srv) {
    && |p| >= HEADER_SIZE
    && Be16(p, 0) == queryId && Be16(p, 2) % 16 == 0 && Be16(p, 6) != 0
    && var start := AfterQuestions(p, HEADER_SIZE, Be16(p, 4));
       start.Some? &&
       var n := Scanned(p, start.value, Be16(p, 6));
       n.Some? && Holding(Offers(p, start.value, n.value), true, srv)
  }

  /** One server's response: the target and port to use, or none. */
  method ProcessResponse(response: seq<byte>, queryId: nat) returns (result: Option<Srv>)
    ensures result.Some? ==> Accepted(response, queryId, result.value)
    ensures result.None? ==> forall srv :: !Accepted(response, queryId, srv)
  {
    if |response| < HEADER_SIZE {
      return None;
    }
    var responseId := Be16(response, 0);
    var flags := Be16(response, 2);
    var qdcount := Be16(response, 4);
    var ancount := Be16(response, 6);
    if responseId != queryId || flags % 16 != 0 || ancount == 0 {
      return None;
    }
    var ok, start := SkipQuestions(response, qdcount);
    if !ok {
      return None;
    }
    var best := new BestRecord();
    ok := ScanAnswers(response, start, ancount, best);
    if !ok || !best.have {
      return None;
    }
    return Some(best.record);
  }

  lemma AcceptedIsUnique(p: seq<byte>, queryId: nat, a: Srv, b: Srv)
    requires Accepted(p, queryId, a) && Accepted(p, queryId, b)
    ensures a == b
  {
    var start := AfterQuestions(p, HEADER_SIZE, Be16(p, 4)).value;
    var offers := Offers(p, start, Scanned(p, start, Be16(p, 6)).value);
    var i: nat :| IsBest(offers, i) && offers[i] == Some(a);
    var j: nat :| IsBest(offers, j) && offers[j] == Some(b);
    BestIsUnique(offers, i, j);
  }

  // -------------------------------------------------------------------- query

  method WriteBe16(buf: array<byte>, at: nat, value: nat)
    requires at + 2 <= buf.Length && value < 0x1_0000
    modifies buf
    ensures buf[at] == value / 256 && buf[at + 1] == value % 256
    ensures forall k :: 0 <= k < buf.Length && k != at && k != at + 1 ==> buf[k] == old(buf[k])
  {
    buf[at] := value / 256;
    buf[at + 1] := value % 256;
  }

  /** A well-formed query: one question, for an SRV record of class IN, and nothing else. */
  ghost predicate IsQuery(q: seq<byte>, queryId: nat, service: Name) {
    && Valid(service) && |q| == HEADER_SIZE + |Encoded(service)| + 4
    && Be16(q, 0) == queryId && Be16(q, 2) == FLAG_RD && Be16(q, 4) == 1 && Be16(q, 6) == 0
    && Holds(q, HEADER_SIZE, Encoded(service))
    && Be16(q, |q| - 4) == TYPE_SRV && Be16(q, |q| - 2) == CLASS_IN
  }

  /** Fills a zeroed packet with the query for `service`; -1 when the name is invalid or too long. */
  method BuildQuery(packet: array<byte>, queryId: nat, service: seq<byte>) returns (len: int)
    requires packet.Length == PACKET_MAX && forall k :: 0 <= k < PACKET_MAX ==> packet[k] == 0
    requires queryId < 0x1_0000 && 0 !in service
    modifies packet
    ensures len >= 0 <==> Fits(service, PACKET_MAX - HEADER_SIZE - 4)
    ensures len >= 0 ==> len <= PACKET_MAX && IsQuery(packet[..len], queryId, Spelled(service, 0))
  {
    ghost var was := packet[..];
    var encoded := EncodeDnsName(packet, HEADER_SIZE, PACKET_MAX - HEADER_SIZE, service);
    if encoded < 0 {
      return -1;
    }
    var queryLen := HEADER_SIZE + encoded;
    if queryLen + 4 > PACKET_MAX {
      return -1;
    }
    ghost var code := Encoded(Spelled(service, 0));
    QuestionName(packet[..], was, code);
    WriteBe16(packet, 0, queryId);
    WriteBe16(packet, 2, FLAG_RD);
    WriteBe16(packet, 4, 1);
    WriteBe16(packet, queryLen, TYPE_SRV);
    WriteBe16(packet, queryLen + 2, CLASS_IN);
    FieldsMakeQuery(packet[..queryLen + 4], queryId, Spelled(service, 0));
    return queryLen + 4;
  }

  lemma QuestionName(now: seq<byte>, was: seq<byte>, code: seq<byte>)
    requires Placed(now, was, HEADER_SIZE, code) && forall k :: 0 <= k < |was| ==> was[k] == 0
    ensures forall k :: 0 <= k < |code| ==> now[HEADER_SIZE + k] == code[k]
    ensures forall k :: 0 <= k < HEADER_SIZE ==> now[k] == 0
  {
    PlacedMeans(now, was, HEADER_SIZE, code);
  }

  lemma FieldsMakeQuery(q: seq<byte>, queryId: nat, service: Name)
    requires Valid(service) && |q| == HEADER_SIZE + |Encoded(service)| + 4
    requires q[0] == queryId / 256 && q[1] == queryId % 256
    requires q[2] == 1 && q[3] == 0 && q[4] == 0 && q[5] == 1 && q[6] == 0 && q[7] == 0
    requires forall k :: 0 <= k < |Encoded(service)| ==> q[HEADER_SIZE + k] == Encoded(service)[k]
    requires q[|q| - 4] == 0 && q[|q| - 3] == TYPE_SRV && q[|q| - 2] == 0 && q[|q| - 1] == CLASS_IN
    ensures IsQuery(q, queryId, service)
  {
  }

  /** The firmware's own query, walked as a response would be, ends exactly at its end and asks for the service. */
  lemma QueryReadsBack(q: seq<byte>, queryId: nat, text: seq<byte>)
    requires IsQuery(q, queryId, Spelled(text, 0))
    ensures AfterQuestions(q, HEADER_SIZE, Be16(q, 4)) == Some(|q|)
    ensures Readable(q, HEADER_SIZE, TARGET_SIZE)
       <==> Count(Spelled(text, 0)) <= 31 && |WithoutTrailingDot(text)| < TARGET_SIZE
    ensures Readable(q, HEADER_SIZE, TARGET_SIZE) ==> ReadText(q, HEADER_SIZE, TARGET_SIZE) == WithoutTrailingDot(text)
  {
    NameReadsBackExactly(q, HEADER_SIZE, text);
    assert AfterQuestions(q, |q|, 0) == Some(|q|);
  }
}
