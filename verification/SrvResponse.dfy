/**
 Responses written out octet by octet, as a name server prints them (section 4.1 of
 RFC 1035, and "The format of the SRV RR" in RFC 2782), and what the firmware makes of them.
 */
module SrvResponse {
  import opened Wrappers
  import opened DnsName
  import opened DnsCodec
  import opened SrvQuery

  /** The name a record belongs to: written in full, or as labels and a pointer. */
  datatype Owner = Plain(name: Name) | Compressed(front: Name, t: nat)

  predicate GoodOwner(o: Owner) {
    match o
    case Plain(name) => Valid(name)
    case Compressed(front, t) => Valid(front) && t < 0x4000
  }

  function OwnerCode(o: Owner): seq<byte>
    requires GoodOwner(o)
  {
    match o
    case Plain(name) => Encoded(name)
    case Compressed(front, t) => Prefix(front) + PointerTo(t)
  }

  /** Two octets, high one first. */
  function Two(v: nat): seq<byte>
    requires v < 0x1_0000
  {
    [v / 0x100, v % 0x100]
  }

  /** A record of the answer section: an SRV record of class IN, or any other. */
  datatype Line =
    | SrvLine(owner: Owner, ttl: seq<byte>, priority: nat, weight: nat, port: nat, target: Name)
    | OtherLine(owner: Owner, ttl: seq<byte>, kind: nat, class_: nat, data: seq<byte>)

  datatype Lines = NoLine | Lines(first: Line, rest: Lines)

  predicate GoodLine(l: Line) {
    && GoodOwner(l.owner) && |l.ttl| == 4
    && match l
       case SrvLine(_, _, priority, weight, port, target) =>
         priority < 0x1_0000 && weight < 0x1_0000 && port < 0x1_0000 && Valid(target) && 6 + |Encoded(target)| < 0x1_0000
       case OtherLine(_, _, kind, class_, data) =>
         kind < 0x1_0000 && class_ < 0x1_0000 && |data| < 0x1_0000 && (kind != 33 || class_ != 1 || |data| < 7)
  }

  predicate GoodLines(lines: Lines) {
    lines.Lines? ==> GoodLine(lines.first) && GoodLines(lines.rest)
  }

  function Data(l: Line): (data: seq<byte>)
    requires GoodLine(l)
    ensures |data| < 0x1_0000
  {
    match l
    case SrvLine(_, _, priority, weight, port, target) => Two(priority) + Two(weight) + Two(port) + Encoded(target)
    case OtherLine(_, _, _, _, data) => data
  }

  /** Type, class, time to live and length of the data. */
  function Fixed(l: Line): (code: seq<byte>)
    requires GoodLine(l)
    ensures |code| == 10
  {
    (if l.SrvLine? then [0, 33, 0, 1] else Two(l.kind) + Two(l.class_)) + l.ttl + Two(|Data(l)|)
  }

  function Print(l: Line): seq<byte>
    requires GoodLine(l)
  {
    OwnerCode(l.owner) + Fixed(l) + Data(l)
  }

  function PrintAll(lines: Lines): seq<byte>
    requires GoodLines(lines)
  {
    if lines.NoLine? then [] else Print(lines.first) + PrintAll(lines.rest)
  }

  function Size(lines: Lines): nat {
    if lines.NoLine? then 0 else 1 + Size(lines.rest)
  }

  function Nth(lines: Lines, k: nat): Line
    requires k < Size(lines)
  {
    if k == 0 then lines.first else Nth(lines.rest, k - 1)
  }

  // ------------------------------------------------------------- what is expected

  /** A target the firmware can read: at most 31 labels, at most 255 bytes with dots. */
  predicate Usable(l: Line) {
    l.SrvLine? && Count(l.target) <= 31 && |Dotted(l.target)| <= 255
  }

  /** The host name that is kept. */
  function HostOf(l: Line): seq<byte>
    requires l.SrvLine?
  {
    TrimDots(CStr(Dotted(l.target)))
  }

  function SrvOf(l: Line): Srv
    requires l.SrvLine?
  {
    Srv(l.priority, l.weight, l.port, HostOf(l))
  }

  /** Lowest priority, then highest weight, then first, among the usable lines. */
  ghost predicate Chosen(lines: Lines, i: nat) {
    && i < Size(lines) && Usable(Nth(lines, i))
    && forall j :: 0 <= j < Size(lines) && j != i && Usable(Nth(lines, j)) ==>
         var mine, other := Nth(lines, i), Nth(lines, j);
         || mine.priority < other.priority
         || (mine.priority == other.priority && mine.weight > other.weight)
         || (mine.priority == other.priority && mine.weight == other.weight && i < j)
  }

  ghost predicate NoneUsable(lines: Lines) {
    forall k :: 0 <= k < Size(lines) ==> !Usable(Nth(lines, k))
  }

  /** The message is a response with one question and these answers; anything may follow. */
  ghost predicate Shows(p: seq<byte>, id: nat, flags: nat, service: Name, lines: Lines) {
    && id < 0x1_0000 && flags < 0x1_0000 && Valid(service) && GoodLines(lines) && Size(lines) < 0x1_0000
    && Holds(p, 0, Two(id) + Two(flags) + [0, 1] + Two(Size(lines)))
    && HEADER_SIZE <= |p| && Holds(p, HEADER_SIZE, Encoded(service))
    && HEADER_SIZE + |Encoded(service)| + 4 <= |p|
    && Holds(p, HEADER_SIZE + |Encoded(service)| + 4, PrintAll(lines))
  }

  // ----------------------------------------------------------------------- proofs

  lemma OwnerIsSkipped(p: seq<byte>, at: nat, o: Owner)
    requires GoodOwner(o) && Holds(p, at, OwnerCode(o))
    ensures NextOffset(p, at) == Some(at + |OwnerCode(o)|)
  {
    match o
    case Plain(name) => EncodedReadsBack(p, at, name, 0);
    case Compressed(front, t) => CompressedIsSkipped(p, at, front, t);
  }

  lemma TwoIsRead(p: seq<byte>, at: nat, v: nat)
    requires v < 0x1_0000 && Holds(p, at, Two(v))
    ensures Be16(p, at) == v
  {
    assert p[at + 0] == Two(v)[0] && p[at + 1] == Two(v)[1];
  }

  lemma FixedIsRead(p: seq<byte>, at: nat, l: Line)
    requires GoodLine(l) && Holds(p, at, Fixed(l))
    ensures Be16(p, at) == (if l.SrvLine? then 33 else l.kind) && Be16(p, at + 2) == if l.SrvLine? then 1 else l.class_
    ensures Be16(p, at + 8) == |Data(l)|
  {
    var code := Fixed(l);
    forall i | 0 <= i < 10 ensures p[at + i] == code[i] { }
    assert p[at + 0] == code[0] && p[at + 1] == code[1] && p[at + 2] == code[2] && p[at + 3] == code[3];
    assert p[at + 8] == code[8] && p[at + 9] == code[9];
  }

  /** The record a line stands for. */
  function RecordOf(l: Line, at: nat): Record
    requires GoodLine(l)
  {
    Record(if l.SrvLine? then 33 else l.kind, if l.SrvLine? then 1 else l.class_, at + |OwnerCode(l.owner)| + 10, |Data(l)|)
  }

  lemma HoldsThree(p: seq<byte>, at: nat, a: seq<byte>, b: seq<byte>, c: seq<byte>)
    requires Holds(p, at, a + b + c)
    ensures Holds(p, at, a) && Holds(p, at + |a|, b) && Holds(p, at + |a| + |b|, c)
  {
    HoldsParts(p, at, a + b, c);
    HoldsParts(p, at, a, b);
  }

  lemma LineIsRecord(p: seq<byte>, at: nat, l: Line)
    requires GoodLine(l) && Holds(p, at, Print(l))
    ensures RecordAt(p, at) == Some(RecordOf(l, at)) && RecordOf(l, at).After() == at + |Print(l)| <= |p|
    ensures Holds(p, RecordOf(l, at).start, Data(l))
  {
    HoldsThree(p, at, OwnerCode(l.owner), Fixed(l), Data(l));
    PartsAreRecord(p, at, l, at + |OwnerCode(l.owner)|);
  }

  lemma PartsAreRecord(p: seq<byte>, at: nat, l: Line, o: nat)
    requires GoodLine(l) && o == at + |OwnerCode(l.owner)|
    requires Holds(p, at, OwnerCode(l.owner)) && Holds(p, o, Fixed(l)) && o + 10 + |Data(l)| <= |p|
    ensures RecordAt(p, at) == Some(RecordOf(l, at))
  {
    OwnerIsSkipped(p, at, l.owner);
    FixedIsRead(p, o, l);
    RecordIs(p, at, RecordOf(l, at));
  }

  lemma RecordIs(p: seq<byte>, at: nat, r: Record)
    requires r.start >= 10 && NextOffset(p, at) == Some(r.start - 10) && r.After() <= |p|
    requires var o := r.start - 10; Be16(p, o) == r.kind && Be16(p, o + 2) == r.class_ && Be16(p, o + 8) == r.size
    ensures RecordAt(p, at) == Some(r)
  {
  }

  /** What the firmware's fold is offered by a line. */
  function Expected(l: Line): Option<Srv> {
    if Usable(l) then Some(SrvOf(l)) else None
  }

  lemma SrvDataIsRead(p: seq<byte>, at: nat, l: Line)
    requires GoodLine(l) && l.SrvLine? && Holds(p, at, Data(l))
    ensures Be16(p, at) == l.priority && Be16(p, at + 2) == l.weight && Be16(p, at + 4) == l.port
    ensures TargetOf(p, at + 6) == if Usable(l) then Some(HostOf(l)) else None
  {
    HoldsParts(p, at, Two(l.priority) + Two(l.weight) + Two(l.port), Encoded(l.target));
    HoldsParts(p, at, Two(l.priority) + Two(l.weight), Two(l.port));
    HoldsParts(p, at, Two(l.priority), Two(l.weight));
    TwoIsRead(p, at, l.priority);
    TwoIsRead(p, at + 2, l.weight);
    TwoIsRead(p, at + 4, l.port);
    EncodedReadsBack(p, at + 6, l.target, READ_BUDGET);
  }

  lemma LineOffers(p: seq<byte>, r: Record, l: Line)
    requires GoodLine(l) && r.After() <= |p| && r.size == |Data(l)| && Holds(p, r.start, Data(l))
    requires r.kind == (if l.SrvLine? then 33 else l.kind) && r.class_ == if l.SrvLine? then 1 else l.class_
    ensures Offer(p, r) == Expected(l)
  {
    if l.SrvLine? {
      SrvDataIsRead(p, r.start, l);
    }
  }

  /** The walk meets the lines one after the other, and each offers what it should. */
  ghost predicate Walked(p: seq<byte>, at: nat, lines: Lines)
    decreases lines
  {
    lines.Lines? ==>
      match RecordAt(p, at)
      case None => false
      case Some(r) =>
        at < |p| && r.After() <= |p| && Offer(p, r) == Expected(lines.first) && Walked(p, r.After(), lines.rest)
  }

  lemma {:induction false} PrintedIsWalked(p: seq<byte>, at: nat, lines: Lines)
    requires GoodLines(lines) && Holds(p, at, PrintAll(lines))
    ensures Walked(p, at, lines)
    decreases lines
  {
    if lines.Lines? {
      var next := at + |Print(lines.first)|;
      HoldsParts(p, at, Print(lines.first), PrintAll(lines.rest));
      FirstLine(p, at, lines.first);
      PrintedIsWalked(p, next, lines.rest);
      LineAndRestWalked(p, at, lines.first, lines.rest, next);
    }
  }

  lemma LineAndRestWalked(p: seq<byte>, at: nat, l: Line, rest: Lines, next: nat)
    requires RecordAt(p, at).Some? && at < |p|
    requires var r := RecordAt(p, at).value; r.After() == next <= |p| && Offer(p, r) == Expected(l)
    requires Walked(p, next, rest)
    ensures Walked(p, at, Lines(l, rest))
  {
  }

  lemma FirstLine(p: seq<byte>, at: nat, l: Line)
    requires GoodLine(l) && Holds(p, at, Print(l))
    ensures RecordAt(p, at).Some? && at < |p|
    ensures var r := RecordAt(p, at).value; r.After() == at + |Print(l)| <= |p| && Offer(p, r) == Expected(l)
  {
    LineIsRecord(p, at, l);
    LineOffers(p, RecordOf(l, at), l);
  }

  lemma {:induction false} NthOffer(p: seq<byte>, at: nat, lines: Lines, k: nat)
    requires Walked(p, at, lines) && k < Size(lines)
    ensures OfferAt(p, at, k) == Expected(Nth(lines, k))
    decreases lines
  {
    if k > 0 {
      NthOffer(p, RecordAt(p, at).value.After(), lines.rest, k - 1);
    }
  }

  lemma {:induction false} AllAreScanned(p: seq<byte>, at: nat, lines: Lines)
    requires Walked(p, at, lines)
    ensures Scanned(p, at, Size(lines)) == Some(Size(lines))
    decreases lines
  {
    if lines.Lines? {
      AllAreScanned(p, RecordAt(p, at).value.After(), lines.rest);
    }
  }

  lemma {:induction false} OffersAre(p: seq<byte>, at: nat, n: nat, k: nat)
    requires k < n
    ensures Offers(p, at, n)[k] == OfferAt(p, at, k)
  {
    if k < n - 1 {
      OffersAre(p, at, n - 1, k);
    }
  }

  lemma HeadIsRead(p: seq<byte>, id: nat, flags: nat, n: nat)
    requires id < 0x1_0000 && flags < 0x1_0000 && n < 0x1_0000 && Holds(p, 0, Two(id) + Two(flags) + [0, 1] + Two(n))
    ensures Be16(p, 0) == id && Be16(p, 2) == flags && Be16(p, 4) == 1 && Be16(p, 6) == n
  {
    var head := Two(id) + Two(flags) + [0, 1] + Two(n);
    forall i | 0 <= i < 8 ensures p[i] == head[i] {
      assert p[0 + i] == head[i];
    }
  }

  /** The answers of the message, as the firmware's walk finds them. */
  lemma ShownIsWalked(p: seq<byte>, id: nat, flags: nat, service: Name, lines: Lines)
    requires Shows(p, id, flags, service, lines)
    ensures var start := HEADER_SIZE + |Encoded(service)| + 4;
            AfterQuestions(p, HEADER_SIZE, 1) == Some(start) && Walked(p, start, lines)
  {
    var start := HEADER_SIZE + |Encoded(service)| + 4;
    EncodedReadsBack(p, HEADER_SIZE, service, 0);
    assert AfterQuestions(p, start, 0) == Some(start);
    PrintedIsWalked(p, start, lines);
  }

  /** The offers of a walk are those of its lines. */
  ghost predicate OffersOf(offers: seq<Option<Srv>>, lines: Lines) {
    |offers| == Size(lines) && forall k :: 0 <= k < |offers| ==> offers[k] == Expected(Nth(lines, k))
  }

  lemma WalkedOffers(p: seq<byte>, at: nat, lines: Lines)
    requires Walked(p, at, lines)
    ensures OffersOf(Offers(p, at, Size(lines)), lines)
  {
    forall k | 0 <= k < Size(lines) ensures Offers(p, at, Size(lines))[k] == Expected(Nth(lines, k)) {
      OffersAre(p, at, Size(lines), k);
      NthOffer(p, at, lines, k);
    }
  }

  lemma ChosenIsBest(offers: seq<Option<Srv>>, lines: Lines, i: nat)
    requires OffersOf(offers, lines)
    ensures Chosen(lines, i) <==> IsBest(offers, i)
  {
    if IsBest(offers, i) {
      forall j | 0 <= j < Size(lines) && j != i && Usable(Nth(lines, j))
        ensures var mine, other := Nth(lines, i), Nth(lines, j);
          || mine.priority < other.priority
          || (mine.priority == other.priority && mine.weight > other.weight)
          || (mine.priority == other.priority && mine.weight == other.weight && i < j)
      {
        assert offers[j] == Expected(Nth(lines, j)) && offers[i] == Expected(Nth(lines, i));
      }
    } else if Chosen(lines, i) {
      assert offers[i] == Expected(Nth(lines, i));
      forall j | 0 <= j < |offers| && offers[j].Some? && j != i
        ensures !Better(offers[j].value, offers[i].value) && (j < i ==> Better(offers[i].value, offers[j].value))
      {
        assert offers[j] == Expected(Nth(lines, j));
      }
      assert IsBest(offers, i);
    }
  }

  // ----------------------------------------------------------------- the theorems

  /** Where the answers begin. */
  function AnswersAt(service: Name): nat
    requires Valid(service)
  {
    HEADER_SIZE + |Encoded(service)| + 4
  }

  /** The response is used exactly when it answers the query, without error, and holds this choice. */
  ghost predicate Decided(p: seq<byte>, id: nat, flags: nat, lines: Lines, queryId: nat, offers: seq<Option<Srv>>, srv: Srv) {
    && OffersOf(offers, lines)
    && (Accepted(p, queryId, srv) <==> queryId == id && flags % 16 == 0 && lines.Lines? && Holding(offers, true, srv))
  }

  lemma ShownIsDecided(p: seq<byte>, id: nat, flags: nat, service: Name, lines: Lines, queryId: nat, srv: Srv)
    requires Shows(p, id, flags, service, lines)
    ensures Decided(p, id, flags, lines, queryId, Offers(p, AnswersAt(service), Size(lines)), srv)
  {
    HeadIsRead(p, id, flags, Size(lines));
    ShownIsWalked(p, id, flags, service, lines);
    AllAreScanned(p, AnswersAt(service), lines);
    WalkedOffers(p, AnswersAt(service), lines);
    WalkIsDecided(p, id, flags, service, lines, queryId, srv);
  }

  lemma WalkIsDecided(p: seq<byte>, id: nat, flags: nat, service: Name, lines: Lines, queryId: nat, srv: Srv)
    requires |p| >= HEADER_SIZE && Valid(service)
    requires Be16(p, 0) == id && Be16(p, 2) == flags && Be16(p, 4) == 1 && Be16(p, 6) == Size(lines)
    requires AfterQuestions(p, HEADER_SIZE, 1) == Some(AnswersAt(service))
    requires Scanned(p, AnswersAt(service), Size(lines)) == Some(Size(lines))
    requires OffersOf(Offers(p, AnswersAt(service), Size(lines)), lines)
    ensures Decided(p, id, flags, lines, queryId, Offers(p, AnswersAt(service), Size(lines)), srv)
  {
  }

  lemma HoldsTheChosen(offers: seq<Option<Srv>>, lines: Lines, i: nat, srv: Srv)
    requires OffersOf(offers, lines) && Chosen(lines, i)
    ensures Holding(offers, true, srv) <==> Expected(Nth(lines, i)) == Some(srv)
  {
    ChosenIsBest(offers, lines, i);
    assert offers[i] == Expected(Nth(lines, i));
    if j: nat :| IsBest(offers, j) && offers[j] == Some(srv) {
      BestIsUnique(offers, i, j);
    }
  }

  /** A response answers with the numbers and the host printed on its chosen line, and with nothing else. */
  lemma ChosenLineAnswers(p: seq<byte>, id: nat, flags: nat, service: Name, lines: Lines, i: nat, srv: Srv)
    requires Shows(p, id, flags, service, lines) && flags % 16 == 0 && Chosen(lines, i)
    ensures Accepted(p, id, srv) <==>
            var l := Nth(lines, i);
            srv.priority == l.priority && srv.weight == l.weight && srv.port == l.port && srv.target == HostOf(l)
  {
    ShownIsDecided(p, id, flags, service, lines, id, srv);
    ChosenDecides(p, id, flags, lines, Offers(p, AnswersAt(service), Size(lines)), i, srv);
  }

  lemma ChosenDecides(p: seq<byte>, id: nat, flags: nat, lines: Lines, offers: seq<Option<Srv>>, i: nat, srv: Srv)
    requires Decided(p, id, flags, lines, id, offers, srv) && flags % 16 == 0 && Chosen(lines, i)
    ensures Accepted(p, id, srv) <==> SrvOf(Nth(lines, i)) == srv
  {
    HoldsTheChosen(offers, lines, i, srv);
  }

  lemma HoldsNothing(offers: seq<Option<Srv>>, lines: Lines, srv: Srv)
    requires OffersOf(offers, lines)
    ensures NoneUsable(lines) ==> !Holding(offers, true, srv)
    ensures lines.NoLine? ==> !Holding(offers, true, srv)
  {
    if i: nat :| IsBest(offers, i) && offers[i] == Some(srv) {
      assert offers[i] == Expected(Nth(lines, i));
    }
  }

  /** Without a usable line, with another id, with an error code or without answers a response is not used. */
  lemma OtherwiseNoAnswer(p: seq<byte>, id: nat, flags: nat, service: Name, lines: Lines, queryId: nat, srv: Srv)
    requires Shows(p, id, flags, service, lines)
    requires id != queryId || flags % 16 != 0 || lines.NoLine? || NoneUsable(lines)
    ensures !Accepted(p, queryId, srv)
  {
    ShownIsDecided(p, id, flags, service, lines, queryId, srv);
    NothingDecides(p, id, flags, lines, queryId, Offers(p, AnswersAt(service), Size(lines)), srv);
  }

  lemma NothingDecides(p: seq<byte>, id: nat, flags: nat, lines: Lines, queryId: nat, offers: seq<Option<Srv>>, srv: Srv)
    requires Decided(p, id, flags, lines, queryId, offers, srv)
    requires id != queryId || flags % 16 != 0 || lines.NoLine? || NoneUsable(lines)
    ensures !Accepted(p, queryId, srv)
  {
    HoldsNothing(offers, lines, srv);
  }

  /** If any line is usable, one is chosen. */
  lemma {:induction false} SomeLineIsChosen(lines: Lines, n: nat) returns (i: nat)
    requires n <= Size(lines) && exists k :: 0 <= k < n && Usable(Nth(lines, k))
    ensures i < n && Usable(Nth(lines, i))
    ensures forall j :: 0 <= j < n && j != i && Usable(Nth(lines, j)) ==>
      var mine, other := Nth(lines, i), Nth(lines, j);
      || mine.priority < other.priority
      || (mine.priority == other.priority && mine.weight > other.weight)
      || (mine.priority == other.priority && mine.weight == other.weight && i < j)
  {
    if exists k :: 0 <= k < n - 1 && Usable(Nth(lines, k)) {
      i := SomeLineIsChosen(lines, n - 1);
      var last, best := Nth(lines, n - 1), Nth(lines, i);
      if Usable(last) && (last.priority < best.priority || (last.priority == best.priority && last.weight > best.weight)) {
        i := n - 1;
      }
    } else {
      i := n - 1;
    }
  }

  /** The firmware, given the response to its query. */
  method AnswerOf(response: seq<byte>, ghost flags: nat, ghost service: Name, ghost lines: Lines, queryId: nat)
      returns (result: Option<Srv>)
    requires Shows(response, queryId, flags, service, lines) && flags % 16 == 0
    ensures result.None? <==> NoneUsable(lines)
    ensures result.Some? ==> exists i: nat :: Chosen(lines, i) && result.value.port == Nth(lines, i).port
                                              && result.value.target == HostOf(Nth(lines, i))
  {
    result := ProcessResponse(response, queryId);
    if exists k :: 0 <= k < Size(lines) && Usable(Nth(lines, k)) {
      ghost var i := SomeLineIsChosen(lines, Size(lines));
      ghost var l := Nth(lines, i);
      ChosenLineAnswers(response, queryId, flags, service, lines, i, SrvOf(l));
      if result.Some? {
        ChosenLineAnswers(response, queryId, flags, service, lines, i, result.value);
      }
    } else if result.Some? {
      OtherwiseNoAnswer(response, queryId, flags, service, lines, queryId, result.value);
    }
  }
}
