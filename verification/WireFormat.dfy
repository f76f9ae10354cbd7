/**
 The CSI datagram: captured and encoded by the receiver firmware, parsed by the
 aggregator. A float32 is an opaque 32-bit word.
 */
module WireFormat {
  import opened Wrappers

  const PACKET_MAGIC: nat := 0x43534921
  const PACKET_VERSION: nat := 2
  const HEADER_SIZE: nat := 60
  const MAX_SUBCARRIERS: nat := 128
  const MAX_ANTENNAS: nat := 4
  const MAX_VALUES: nat := 512
  const RECEIVER_NAME_MAX_LEN: nat := 32

  type u16 = x: int | 0 <= x < 0x1_0000
  type u32 = x: int | 0 <= x < 0x1_0000_0000
  type i8 = x: int | -128 <= x < 128
  type i16 = x: int | -0x8000 <= x < 0x8000

  // ------------------------------------------------------------- little endian

  function Get16(data: seq<byte>, at: nat): u16
    requires at + 2 <= |data|
  {
    data[at] as int + 0x100 * data[at + 1] as int
  }

  function Get32(data: seq<byte>, at: nat): u32
    requires at + 4 <= |data|
  {
    data[at] as int + 0x100 * data[at + 1] as int + 0x1_0000 * data[at + 2] as int + 0x100_0000 * data[at + 3] as int
  }

  /** Two's complement. */
  function Signed(x: u16): i16 {
    if x < 0x8000 then x else x - 0x1_0000
  }

  function Unsigned(x: i16): u16 {
    if x >= 0 then x else x + 0x1_0000
  }

  // ------------------------------------------------------------------- the capture

  /** What the Wi-Fi driver reports; `buf` alternates imaginary and real parts. */
  datatype CsiInfo = CsiInfo(mac: seq<byte>, rssi: i8, noiseFloor: i8, channel: u16, wide: bool, secondary: bool, buf: seq<i8>)

  /** A pool entry; the two arrays are used up to antennas times subcarriers. */
  datatype Entry = Entry(mac: seq<byte>, rssi: i8, noiseFloor: i8, channel: u16, bandwidth: u16,
                         antennas: u16, subcarriers: u16, timestamp: u32, amplitude: seq<u32>, phase: seq<u32>)

  predicate WellFormed(e: Entry) {
    && |e.mac| == 6
    && e.antennas <= MAX_ANTENNAS && e.subcarriers <= MAX_SUBCARRIERS
    && |e.amplitude| == MAX_VALUES && |e.phase| == MAX_VALUES
  }

  function Values(e: Entry): (n: nat)
    requires WellFormed(e)
    ensures n <= MAX_VALUES
  {
    e.antennas * e.subcarriers
  }

  /** The sample holds the magnitudes and angles of the first `n` complex values. */
  ghost predicate Filled(buf: seq<i8>, n: nat, magnitude: (i8, i8) -> u32, angle: (i8, i8) -> u32,
                         amplitude: seq<u32>, phase: seq<u32>)
  {
    && 2 * n <= |buf| && n <= |amplitude| && n <= |phase|
    && forall i :: 0 <= i < n ==>
         amplitude[i] == magnitude(buf[2 * i + 1], buf[2 * i]) && phase[i] == angle(buf[2 * i], buf[2 * i + 1])
  }

  /** The guard on the buffer's length never cuts the loop short. */
  method FillSamples(buf: seq<i8>, total: nat, magnitude: (i8, i8) -> u32, angle: (i8, i8) -> u32)
      returns (amplitude: seq<u32>, phase: seq<u32>)
    requires 2 * total <= |buf| && total <= MAX_VALUES
    ensures |amplitude| == |phase| == MAX_VALUES && Filled(buf, total, magnitude, angle, amplitude, phase)
  {
    var amplitudes: array<u32> := new u32[MAX_VALUES](_ => 0);
    var phases: array<u32> := new u32[MAX_VALUES](_ => 0);
    var i: nat := 0;
    while i < total && i * 2 + 1 < |buf|
      invariant i <= total && Filled(buf, i, magnitude, angle, amplitudes[..], phases[..])
    {
      amplitudes[i] := magnitude(buf[i * 2 + 1], buf[i * 2]);
      phases[i] := angle(buf[i * 2], buf[i * 2 + 1]);
      i := i + 1;
    }
    return amplitudes[..], phases[..];
  }

  function Cap(n: nat, max: nat): nat {
    if n > max then max else n
  }

  /** `magnitude` and `angle` stand for the square root and the arc tangent. */
  method Capture(info: CsiInfo, now: nat, magnitude: (i8, i8) -> u32, angle: (i8, i8) -> u32) returns (e: Entry)
    requires |info.mac| == 6 && 0 < |info.buf| < 0x1_0000
    ensures WellFormed(e)
    ensures e == Entry(info.mac, info.rssi, info.noiseFloor, info.channel, if info.wide then 40 else 20,
                       if info.secondary then 2 else 1,
                       Cap(|info.buf| / 2 / (if info.secondary then 2 else 1), MAX_SUBCARRIERS),
                       now % 0x1_0000_0000, e.amplitude, e.phase)
    ensures Filled(info.buf, Values(e), magnitude, angle, e.amplitude, e.phase)
  {
    var complex: nat := |info.buf| / 2;
    var antennas: nat := if info.secondary then 2 else 1;
    var subcarriers: nat := (complex / antennas) % 0x1_0000;
    assert antennas * subcarriers <= complex;
    if subcarriers > MAX_SUBCARRIERS {
      subcarriers := MAX_SUBCARRIERS;
    }
    if antennas > MAX_ANTENNAS {
      antennas := MAX_ANTENNAS;
    }
    var total := antennas * subcarriers;
    var amplitude, phase := FillSamples(info.buf, total, magnitude, angle);
    e := Entry(info.mac, info.rssi, info.noiseFloor, info.channel, if info.wide then 40 else 20,
               antennas, subcarriers, now % 0x1_0000_0000, amplitude, phase);
  }

  // ------------------------------------------------------------------- the layout

  /** What the parser returns; `mac` before its formatting as text. */
  datatype Packet = Packet(name: string, mac: seq<byte>, rssi: i16, noiseFloor: i16, channel: u16, bandwidth: u16,
                           antennas: u16, subcarriers: u16, timestamp: u32, amplitude: seq<u32>, phase: seq<u32>)

  /** Where the name field ends, for the two known versions. */
  function NameEnd(version: u16): nat {
    if version == 1 then 22 else 38
  }

  function HeaderSize(version: u16): nat {
    NameEnd(version) + 22
  }

  ghost predicate WordsAt(data: seq<byte>, at: nat, words: seq<u32>) {
    at + 4 * |words| <= |data| && forall i :: 0 <= i < |words| ==> Get32(data, at + 4 * i) == words[i]
  }

  /** The numbers behind the name field. */
  predicate FieldsAt(data: seq<byte>, at: nat, p: Packet) {
    && at + 22 <= |data|
    && data[at..at + 6] == p.mac
    && Signed(Get16(data, at + 6)) == p.rssi
    && Signed(Get16(data, at + 8)) == p.noiseFloor
    && Get16(data, at + 10) == p.channel
    && Get16(data, at + 12) == p.bandwidth
    && Get16(data, at + 14) == p.antennas
    && Get16(data, at + 16) == p.subcarriers
    && Get32(data, at + 18) == p.timestamp
  }

  predicate StartAt(data: seq<byte>, version: u16, field: seq<byte>) {
    && NameEnd(version) <= |data|
    && Get32(data, 0) == PACKET_MAGIC && Get16(data, 4) == version
    && data[6..NameEnd(version)] == field
  }

  /** The documented layout of the packet, with its name field; bytes may follow. */
  ghost predicate Carries(data: seq<byte>, version: u16, field: seq<byte>, p: Packet) {
    CarriesValues(data, version, field, p, p.antennas * p.subcarriers)
  }

  ghost predicate CarriesValues(data: seq<byte>, version: u16, field: seq<byte>, p: Packet, n: nat) {
    && version in {1, 2}
    && StartAt(data, version, field)
    && FieldsAt(data, NameEnd(version), p)
    && |p.amplitude| == |p.phase| == n
    && WordsAt(data, HeaderSize(version), p.amplitude)
    && WordsAt(data, HeaderSize(version) + 4 * n, p.phase)
  }

  // ------------------------------------------------------------------- the parser

  datatype ParseError = TooShort | BadMagic | UnknownVersion
  datatype Parsed = Ok(packet: Packet) | Err(error: ParseError)

  function StripNul(s: seq<byte>): seq<byte> {
    if s != [] && s[|s| - 1] == 0 then StripNul(s[..|s| - 1]) else s
  }

  /** ASCII, with the replacement character for anything else. */
  function Decoded(s: seq<byte>): string {
    seq(|s|, i requires 0 <= i < |s| => if s[i] < 128 then s[i] as char else '\U{FFFD}')
  }

  function UnpackWords(data: seq<byte>, at: nat, n: nat): seq<u32>
    requires at + 4 * n <= |data|
  {
    seq(n, i requires 0 <= i < n => Get32(data, at + 4 * i))
  }

  function ParsePacket(data: seq<byte>): Parsed {
    if |data| < HeaderSize(1) then Err(TooShort)
    else if Get32(data, 0) != PACKET_MAGIC then Err(BadMagic)
    else
      var version := Get16(data, 4);
      if version !in {1, 2} then Err(UnknownVersion)
      else
        if |data| < HeaderSize(version) then Err(TooShort)
        else
          var at := NameEnd(version);
          ParseValues(data, version, Get16(data, at + 14) * Get16(data, at + 16))
  }

  /** The rest of the parser, once the number of values is known. */
  function ParseValues(data: seq<byte>, version: u16, n: nat): Parsed
    requires HeaderSize(version) <= |data|
  {
    var at, header := NameEnd(version), HeaderSize(version);
    if |data| < header + n * 4 * 2 then Err(TooShort)
    else
      Ok(Packet(Decoded(StripNul(data[6..at])), data[at..at + 6], Signed(Get16(data, at + 6)), Signed(Get16(data, at + 8)),
                Get16(data, at + 10), Get16(data, at + 12), Get16(data, at + 14), Get16(data, at + 16), Get32(data, at + 18),
                UnpackWords(data, header, n), UnpackWords(data, header + 4 * n, n)))
  }

  /** The parser accepts exactly the byte strings that carry a packet, and returns that packet. */
  lemma ParsesWhatIsCarried(data: seq<byte>, version: u16, field: seq<byte>, p: Packet)
    requires Carries(data, version, field, p)
    ensures ParsePacket(data) == Ok(p.(name := Decoded(StripNul(field))))
  {
    ParsesValues(data, version, field, p, p.antennas * p.subcarriers);
  }

  lemma ParsesValues(data: seq<byte>, version: u16, field: seq<byte>, p: Packet, n: nat)
    requires CarriesValues(data, version, field, p, n)
    ensures ParseValues(data, version, n) == Ok(p.(name := Decoded(StripNul(field))))
  {
    assert UnpackWords(data, HeaderSize(version), n) == p.amplitude;
    assert UnpackWords(data, HeaderSize(version) + 4 * n, n) == p.phase;
  }

  lemma CarriesWhatIsParsed(data: seq<byte>)
    requires ParsePacket(data).Ok?
    ensures exists version, field :: Carries(data, version, field, ParsePacket(data).packet)
                                     && ParsePacket(data).packet.name == Decoded(StripNul(field))
  {
    var version := Get16(data, 4);
    var at := NameEnd(version);
    ValuesAreCarried(data, version, Get16(data, at + 14) * Get16(data, at + 16));
    assert Carries(data, version, data[6..at], ParsePacket(data).packet);
  }

  lemma ValuesAreCarried(data: seq<byte>, version: u16, n: nat)
    requires version in {1, 2} && HeaderSize(version) <= |data| && StartAt(data, version, data[6..NameEnd(version)])
    requires ParseValues(data, version, n).Ok?
    ensures CarriesValues(data, version, data[6..NameEnd(version)], ParseValues(data, version, n).packet, n)
  {
  }

  /**
   The documented offsets, octet by octet, little-endian: "CSI!" as a number, the version, a name
   field of 16 or 32 bytes, then the numbers and the two arrays, the second behind the first.
   */
  lemma OctetLayout(data: seq<byte>)
    requires ParsePacket(data).Ok?
    ensures data[..6] == [0x21, 0x49, 0x53, 0x43, 1, 0] || data[..6] == [0x21, 0x49, 0x53, 0x43, 2, 0]
    ensures var p := ParsePacket(data).packet;
      var at := if data[4] == 1 then 22 else 38;
      && at + 22 + 8 * (p.antennas * p.subcarriers) <= |data|
      && p.mac == data[at..at + 6]
      && (p.rssi - data[at + 6] as int - 256 * data[at + 7] as int) % 65536 == 0
      && (p.noiseFloor - data[at + 8] as int - 256 * data[at + 9] as int) % 65536 == 0
      && p.channel == data[at + 10] as int + 256 * data[at + 11] as int
      && p.bandwidth == data[at + 12] as int + 256 * data[at + 13] as int
      && p.antennas == data[at + 14] as int + 256 * data[at + 15] as int
      && p.subcarriers == data[at + 16] as int + 256 * data[at + 17] as int
      && p.timestamp == data[at + 18] as int + 0x100 * data[at + 19] as int + 0x1_0000 * data[at + 20] as int
                        + 0x100_0000 * data[at + 21] as int
  {
    assert Get32(data, 0) == PACKET_MAGIC;
    LittleEndianIsUnique(data[0], data[1], data[2], data[3]);
  }

  lemma LittleEndianIsUnique(a: byte, b: byte, c: byte, d: byte)
    requires a as int + 0x100 * b as int + 0x1_0000 * c as int + 0x100_0000 * d as int == 0x43534921
    ensures a == 0x21 && b == 0x49 && c == 0x53 && d == 0x43
  {
  }

  /** Each value of the two arrays, in both versions. */
  lemma OctetValues(data: seq<byte>, i: nat)
    requires ParsePacket(data).Ok?
    requires i < ParsePacket(data).packet.antennas * ParsePacket(data).packet.subcarriers
    ensures var p := ParsePacket(data).packet;
      var n, at := p.antennas * p.subcarriers, (if data[4] == 1 then 44 else 60) + 4 * i;
      && |p.amplitude| == n && |p.phase| == n && at + 4 * n + 4 <= |data|
      && p.amplitude[i] == data[at] as int + 0x100 * data[at + 1] as int + 0x1_0000 * data[at + 2] as int
                           + 0x100_0000 * data[at + 3] as int
      && p.phase[i] == data[at + 4 * n] as int + 0x100 * data[at + 4 * n + 1] as int + 0x1_0000 * data[at + 4 * n + 2] as int
                       + 0x100_0000 * data[at + 4 * n + 3] as int
  {
  }

  // ------------------------------------------------------------------- the encoder

  const BUFFER_SIZE: nat := 4156

  /** The same bytes in a range. */
  ghost predicate Agree(a: seq<byte>, b: seq<byte>, lo: nat, hi: nat) {
    |a| == |b| && hi <= |a| && forall i :: lo <= i < hi ==> a[i] == b[i]
  }

  ghost predicate AgreeOutside(a: seq<byte>, b: seq<byte>, lo: nat, hi: nat) {
    hi <= |a| && Agree(a, b, 0, lo) && Agree(a, b, hi, |a|)
  }

  /** The name as the firmware copies it: at most 31 bytes, padded with NUL to 32. */
  function Padded(name: seq<byte>): (field: seq<byte>)
    ensures |field| == RECEIVER_NAME_MAX_LEN
  {
    seq(RECEIVER_NAME_MAX_LEN, i => if 0 <= i < Cap(|name|, RECEIVER_NAME_MAX_LEN - 1) then name[i] else 0)
  }

  /** The packet an entry stands for. */
  function PacketOf(name: string, e: Entry): Packet
    requires WellFormed(e)
  {
    Packet(name, e.mac, e.rssi, e.noiseFloor, e.channel, e.bandwidth, e.antennas, e.subcarriers, e.timestamp,
           e.amplitude[..Values(e)], e.phase[..Values(e)])
  }

  method Put16(buf: array<byte>, at: nat, v: u16)
    requires at + 2 <= buf.Length
    modifies buf
    ensures Get16(buf[..], at) == v && AgreeOutside(old(buf[..]), buf[..], at, at + 2)
  {
    buf[at], buf[at + 1] := v % 0x100, v / 0x100;
  }

  method Put32(buf: array<byte>, at: nat, v: u32)
    requires at + 4 <= buf.Length
    modifies buf
    ensures Get32(buf[..], at) == v && AgreeOutside(old(buf[..]), buf[..], at, at + 4)
  {
    var high := v / 0x100;
    var higher := high / 0x100;
    buf[at], buf[at + 1], buf[at + 2], buf[at + 3] := v % 0x100, high % 0x100, higher % 0x100, higher / 0x100;
  }

  method PutBytes(buf: array<byte>, at: nat, bytes: seq<byte>)
    requires at + |bytes| <= buf.Length
    modifies buf
    ensures buf[at..at + |bytes|] == bytes && AgreeOutside(old(buf[..]), buf[..], at, at + |bytes|)
  {
    for i := 0 to |bytes|
      invariant buf[at..at + i] == bytes[..i]
      invariant AgreeOutside(old(buf[..]), buf[..], at, at + i)
    {
      buf[at + i] := bytes[i];
    }
  }

  method PutName(buf: array<byte>, name: seq<byte>)
    requires 38 <= buf.Length
    modifies buf
    ensures buf[6..38] == Padded(name) && AgreeOutside(old(buf[..]), buf[..], 6, 38)
  {
    for i := 0 to RECEIVER_NAME_MAX_LEN
      invariant forall j :: 6 <= j < 6 + i ==> buf[j] == 0
      invariant AgreeOutside(old(buf[..]), buf[..], 6, 38)
    {
      buf[6 + i] := 0;
    }
    var i: nat := 0;
    while i < RECEIVER_NAME_MAX_LEN - 1 && i < |name|
      invariant i <= Cap(|name|, RECEIVER_NAME_MAX_LEN - 1)
      invariant forall j :: 0 <= j < i ==> buf[6 + j] == name[j]
      invariant forall j :: 6 + i <= j < 38 ==> buf[j] == 0
      invariant AgreeOutside(old(buf[..]), buf[..], 6, 38)
    {
      buf[6 + i] := name[i];
      i := i + 1;
    }
  }

  method PutWords(buf: array<byte>, at: nat, words: seq<u32>, n: nat)
    requires n <= |words| && at + 4 * n <= buf.Length
    modifies buf
    ensures WordsAt(buf[..], at, words[..n]) && AgreeOutside(old(buf[..]), buf[..], at, at + 4 * n)
  {
    for i := 0 to n
      invariant WordsAt(buf[..], at, words[..i])
      invariant AgreeOutside(old(buf[..]), buf[..], at, at + 4 * i)
    {
      ghost var before := buf[..];
      Put32(buf, at + 4 * i, words[i]);
      WordsStay(before, buf[..], at, words[..i]);
    }
  }

  lemma WordsStay(a: seq<byte>, b: seq<byte>, at: nat, words: seq<u32>)
    requires WordsAt(a, at, words) && Agree(a, b, at, at + 4 * |words|)
    ensures WordsAt(b, at, words)
  {
  }

  lemma StartStays(a: seq<byte>, b: seq<byte>, version: u16, field: seq<byte>)
    requires StartAt(a, version, field) && Agree(a, b, 0, NameEnd(version))
    ensures StartAt(b, version, field)
  {
    assert a[6..NameEnd(version)] == b[6..NameEnd(version)];
  }

  lemma FieldsStay(a: seq<byte>, b: seq<byte>, at: nat, p: Packet)
    requires FieldsAt(a, at, p) && Agree(a, b, at, at + 22)
    ensures FieldsAt(b, at, p)
  {
    assert a[at..at + 6] == b[at..at + 6];
  }

  method EncodeStart(buf: array<byte>, name: seq<byte>)
    requires buf.Length == BUFFER_SIZE
    modifies buf
    ensures StartAt(buf[..], PACKET_VERSION, Padded(name))
  {
    Put32(buf, 0, PACKET_MAGIC);
    Put16(buf, 4, PACKET_VERSION);
    PutName(buf, name);
  }

  method EncodeFields(buf: array<byte>, e: Entry, ghost p: Packet)
    requires buf.Length == BUFFER_SIZE && WellFormed(e) && p == PacketOf(p.name, e)
    modifies buf
    ensures FieldsAt(buf[..], 38, p) && AgreeOutside(old(buf[..]), buf[..], 38, 60)
  {
    PutBytes(buf, 38, e.mac);
    Put16(buf, 44, Unsigned(e.rssi));
    Put16(buf, 46, Unsigned(e.noiseFloor));
    Put16(buf, 48, e.channel);
    Put16(buf, 50, e.bandwidth);
    Put16(buf, 52, e.antennas);
    Put16(buf, 54, e.subcarriers);
    Put32(buf, 56, e.timestamp);
  }

  /** Every entry fits the static buffer, and the datagram carries it. */
  method EncodePacket(buf: array<byte>, name: seq<byte>, e: Entry) returns (len: nat)
    requires buf.Length == BUFFER_SIZE && WellFormed(e)
    modifies buf
    ensures len == HEADER_SIZE + 8 * Values(e) <= buf.Length
    ensures Carries(buf[..len], PACKET_VERSION, Padded(name), PacketOf(Shown(name), e))
  {
    var n := Values(e);
    ghost var p := PacketOf(Shown(name), e);
    EncodeStart(buf, name);
    ghost var started := buf[..];
    EncodeFields(buf, e, p);
    ghost var headed := buf[..];
    StartStays(started, headed, PACKET_VERSION, Padded(name));
    PutWords(buf, HEADER_SIZE, e.amplitude, n);
    ghost var half := buf[..];
    PutWords(buf, HEADER_SIZE + 4 * n, e.phase, n);
    len := HEADER_SIZE + n * 4 * 2;
    Assembled(headed, half, buf[..], Padded(name), p, n, len);
  }

  /** The three parts stay as they were written. */
  lemma Assembled(headed: seq<byte>, half: seq<byte>, all: seq<byte>, field: seq<byte>, p: Packet, n: nat, len: nat)
    requires StartAt(headed, PACKET_VERSION, field) && FieldsAt(headed, 38, p)
    requires |p.amplitude| == |p.phase| == n && len == HEADER_SIZE + 8 * n <= |headed|
    requires AgreeOutside(headed, half, HEADER_SIZE, HEADER_SIZE + 4 * n) && WordsAt(half, HEADER_SIZE, p.amplitude)
    requires AgreeOutside(half, all, HEADER_SIZE + 4 * n, len) && WordsAt(all, HEADER_SIZE + 4 * n, p.phase)
    ensures CarriesValues(all[..len], PACKET_VERSION, field, p, n)
  {
    StartStays(headed, all, PACKET_VERSION, field);
    FieldsStay(headed, all, 38, p);
    WordsStay(half, all, HEADER_SIZE, p.amplitude);
    StartCut(all, len, PACKET_VERSION, field);
    FieldsCut(all, len, 38, p);
  }

  lemma StartCut(a: seq<byte>, len: nat, version: u16, field: seq<byte>)
    requires StartAt(a, version, field) && NameEnd(version) <= len <= |a|
    ensures StartAt(a[..len], version, field)
  {
    assert a[..len][6..NameEnd(version)] == a[6..NameEnd(version)];
  }

  lemma FieldsCut(a: seq<byte>, len: nat, at: nat, p: Packet)
    requires FieldsAt(a, at, p) && at + 22 <= len <= |a|
    ensures FieldsAt(a[..len], at, p)
  {
    assert a[..len][at..at + 6] == a[at..at + 6];
  }

  // ----------------------------------------------------------------- the round trip

  /** The name as the parser shows it: at most 31 bytes of it travel. */
  function Shown(name: seq<byte>): string {
    Decoded(name[..Cap(|name|, RECEIVER_NAME_MAX_LEN - 1)])
  }

  lemma {:induction false} StripNulOfPadded(s: seq<byte>, n: nat)
    requires n <= |s| && (n > 0 ==> s[n - 1] != 0) && forall i :: n <= i < |s| ==> s[i] == 0
    ensures StripNul(s) == s[..n]
    decreases |s|
  {
    if n < |s| {
      StripNulOfPadded(s[..|s| - 1], n);
      assert s[..|s| - 1][..n] == s[..n];
    } else {
      assert s[..n] == s;
    }
  }

  /** Whatever carries an entry under a C string's name is parsed back to that entry. */
  lemma EntryReadsBack(data: seq<byte>, name: seq<byte>, e: Entry)
    requires WellFormed(e) && 0 !in name
    requires Carries(data, PACKET_VERSION, Padded(name), PacketOf(Shown(name), e))
    ensures ParsePacket(data) == Ok(PacketOf(Shown(name), e))
  {
    var n := Cap(|name|, RECEIVER_NAME_MAX_LEN - 1);
    assert n > 0 ==> Padded(name)[n - 1] == name[n - 1];
    StripNulOfPadded(Padded(name), n);
    assert Padded(name)[..n] == name[..n];
    ParsesWhatIsCarried(data, PACKET_VERSION, Padded(name), PacketOf(Shown(name), e));
  }

  /** A short ASCII name arrives whole, character by character. */
  lemma ShortNameArrivesWhole(name: seq<byte>)
    requires |name| < RECEIVER_NAME_MAX_LEN && forall i :: 0 <= i < |name| ==> name[i] < 128
    ensures |Shown(name)| == |name| && forall i :: 0 <= i < |name| ==> Shown(name)[i] as int == name[i]
  {
  }

  /** The receiver's datagram, as the aggregator reads it. */
  method SendAndParse(buf: array<byte>, name: seq<byte>, e: Entry) returns (parsed: Parsed)
    requires buf.Length == BUFFER_SIZE && WellFormed(e) && 0 !in name
    modifies buf
    ensures parsed == Ok(PacketOf(Shown(name), e))
  {
    var len := EncodePacket(buf, name, e);
    EntryReadsBack(buf[..len], name, e);
    parsed := ParsePacket(buf[..len]);
  }
}
