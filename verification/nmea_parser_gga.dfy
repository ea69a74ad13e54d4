/**
  The GGA/GNS sentence parser: received bytes are buffered, one line is taken
  from the front of the buffer per parse, its NMEA 0183 checksum (the XOR of
  the characters between the leading `$` and the `*`) is computed, the
  transmitted checksum (two hex digits after the `*`) is read, and the
  comma-separated fields of a GGA or GNS sentence are handed on. Numeric
  conversion of the fields is not modelled: events carry the raw field text.
 */
module NmeaParserGga {
  import opened Wrappers

  type byte = bv8

  const Star: byte := 0x2A
  const Comma: byte := 0x2C
  const LineFeed: byte := 0x0A
  const CarriageReturn: byte := 0x0D

  /** The sentence types after the talker id, and the hemisphere letters. */
  const Gga: seq<byte> := [0x47, 0x47, 0x41]
  const Gns: seq<byte> := [0x47, 0x4E, 0x53]
  const South: seq<byte> := [0x53]
  const West: seq<byte> := [0x57]

  /** The number of fields a GGA/GNS sentence must have to be used. */
  const MinFieldCount: nat := 14

  /** An angle as its field text, and whether the hemisphere negates it. */
  datatype Coordinate = Coordinate(text: seq<byte>, negated: bool)

  /** The values the parser emits, in the order it emits them. */
  datatype NmeaEvent =
    | FixQualityChanged(fixQuality: seq<byte>)
    | NumSatellitesChanged(numSatellites: seq<byte>)
    | HdopChanged(hdop: seq<byte>)
    | AgeOfDifferentialDataChanged(age: seq<byte>)
    | GlobalPositionChanged(latitude: Coordinate, longitude: Coordinate, height: seq<byte>)

  /** What parsing one line yields: the computed checksum, the transmitted
      one if the line carries one, and the emitted events. */
  datatype SentenceResult = SentenceResult(checksum: byte, transmitted: Option<byte>, events: seq<NmeaEvent>)

  // ---------------------------------------------------------------------------
  // Checksum

  function Xor(s: seq<byte>): byte
  {
    if s == [] then 0 else Xor(s[..|s| - 1]) ^ s[|s| - 1]
  }

  /** XOR over a concatenation is the XOR of the parts. */
  lemma {:induction false} XorAppend(s: seq<byte>, t: seq<byte>)
    ensures Xor(s + t) == Xor(s) ^ Xor(t)
    decreases |t|
  {
    if t == [] {
      assert s + t == s;
    } else {
      assert (s + t)[..|s + t| - 1] == s + t[..|t| - 1];
      XorAppend(s, t[..|t| - 1]);
    }
  }

  /** One more character of the payload XORs into the checksum. */
  lemma XorStep(line: seq<byte>, i: nat)
    requires 1 <= i < |line|
    ensures Xor(line[1..i + 1]) == Xor(line[1..i]) ^ line[i]
  {
    assert line[1..i + 1][..i - 1] == line[1..i];
  }

  /** The first `*` at or after index `i`, or the end of the line. */
  function StarFrom(line: seq<byte>, i: nat): (k: nat)
    requires i <= |line|
    ensures i <= k <= |line|
    ensures forall j :: i <= j < k ==> line[j] != Star
    ensures k < |line| ==> line[k] == Star
    decreases |line| - i
  {
    if i == |line| then i else if line[i] == Star then i else StarFrom(line, i + 1)
  }

  /** The first `*` after the leading character (which is never inspected),
      or the end of the line. */
  function StarIndex(line: seq<byte>): (k: nat)
    ensures k <= |line| && (|line| > 0 ==> 1 <= k)
    ensures forall j :: 1 <= j < k ==> line[j] != Star
    ensures k < |line| ==> line[k] == Star
  {
    if |line| == 0 then 0 else StarFrom(line, 1)
  }

  /** The characters the checksum covers: from index 1 up to the first `*`. */
  function Payload(line: seq<byte>): seq<byte>
  {
    if |line| == 0 then [] else line[1..StarIndex(line)]
  }

  /** A transmitted checksum needs a `*` followed by at least two characters. */
  predicate HasChecksum(line: seq<byte>)
  {
    StarIndex(line) + 3 <= |line|
  }

  function HexDigit(c: byte): (d: Option<byte>)
    ensures d.Some? ==> d.value < 16
  {
    if 0x30 <= c <= 0x39 then Some(c - 0x30)
    else if 0x41 <= c <= 0x46 then Some(c - 0x37)
    else if 0x61 <= c <= 0x66 then Some(c - 0x57)
    else None
  }

  /** Two characters read as a hexadecimal number: the first digit is the
      upper four bits, the second the lower four; a failed conversion gives 0. */
  function HexByte(high: byte, low: byte): (r: byte)
    ensures HexDigit(high).Some? && HexDigit(low).Some? ==>
      r >> 4 == HexDigit(high).value && r & 0x0F == HexDigit(low).value
    ensures HexDigit(high).None? || HexDigit(low).None? ==> r == 0
  {
    match (HexDigit(high), HexDigit(low))
    case (Some(h), Some(l)) => (h << 4) | l
    case _ => 0
  }

  /** The upper-case hexadecimal digit of a value below 16, as a sender writes it. */
  function HexChar(d: byte): byte
    requires d < 16
  {
    if d < 10 then 0x30 + d else 0x37 + d
  }

  /** Reading back the two digits a sender writes for a checksum gives that checksum. */
  lemma HexByteRoundTrip(b: byte)
    ensures HexByte(HexChar(b >> 4), HexChar(b & 0x0F)) == b
  {
    assert HexDigit(HexChar(b >> 4)) == Some(b >> 4);
    assert HexDigit(HexChar(b & 0x0F)) == Some(b & 0x0F);
  }

  function Transmitted(line: seq<byte>): Option<byte>
  {
    if HasChecksum(line) then Some(HexByte(line[StarIndex(line) + 1], line[StarIndex(line) + 2])) else None
  }

  // ---------------------------------------------------------------------------
  // Fields

  /** Splitting at every comma, keeping empty fields. */
  function Split(s: seq<byte>): (fields: seq<seq<byte>>)
    ensures |fields| >= 1
  {
    if s == [] then [[]]
    else
      var rest := Split(s[1..]);
      if s[0] == Comma then [[]] + rest else [[s[0]] + rest[0]] + rest[1..]
  }

  /** Joining fields with commas, the inverse of `Split`. */
  function Join(fields: seq<seq<byte>>): seq<byte>
    requires |fields| >= 1
  {
    if |fields| == 1 then fields[0] else fields[0] + [Comma] + Join(fields[1..])
  }

  function CommaCount(s: seq<byte>): nat
  {
    if s == [] then 0 else (if s[0] == Comma then 1 else 0) + CommaCount(s[1..])
  }

  /** Splitting loses nothing: the fields joined with commas give the text back,
      no field contains a comma, and there is one field more than commas. */
  lemma {:induction false} SplitJoin(s: seq<byte>)
    ensures Join(Split(s)) == s
    ensures forall f :: f in Split(s) ==> Comma !in f
    ensures |Split(s)| == CommaCount(s) + 1
  {
    if s != [] {
      SplitJoin(s[1..]);
      var rest := Split(s[1..]);
      if s[0] != Comma {
        if |rest| == 1 {
          assert Split(s) == [[s[0]] + rest[0]];
        } else {
          assert Split(s)[1..] == rest[1..];
          assert Join(Split(s)) == [s[0]] + rest[0] + [Comma] + Join(rest[1..]);
        }
        assert s == [s[0]] + s[1..];
        forall f | f in Split(s) ensures Comma !in f {
          if f != [s[0]] + rest[0] {
            assert f in rest[1..];
          }
        }
      } else {
        assert s == [s[0]] + s[1..];
      }
    }
  }

  /** Comma-free fields split back to themselves. */
  lemma {:induction false} JoinSplit(fields: seq<seq<byte>>)
    requires |fields| >= 1
    requires forall f :: f in fields ==> Comma !in f
    ensures Split(Join(fields)) == fields
    decreases |fields|, |fields[0]|
  {
    if |fields| == 1 {
      SplitCommaFree(fields[0]);
    } else if fields[0] == [] {
      assert Join(fields) == [Comma] + Join(fields[1..]);
      assert Join(fields)[1..] == Join(fields[1..]);
      JoinSplit(fields[1..]);
      assert fields == [[]] + fields[1..];
    } else {
      var f := fields[0];
      var shorter := [f[1..]] + fields[1..];
      assert forall g :: g in shorter ==> Comma !in g by {
        assert forall g :: g in shorter && g != f[1..] ==> g in fields;
        assert forall c :: c in f[1..] ==> c in f;
      }
      JoinSplit(shorter);
      assert shorter[1..] == fields[1..];
      assert Join(fields) == [f[0]] + Join(shorter);
      assert Join(fields)[1..] == Join(shorter);
      assert f == [f[0]] + f[1..];
      assert f[0] in fields[0];
    }
  }

  lemma {:induction false} SplitCommaFree(s: seq<byte>)
    requires Comma !in s
    ensures Split(s) == [s]
  {
    if s != [] {
      assert s[0] in s;
      assert forall c :: c in s[1..] ==> c in s;
      SplitCommaFree(s[1..]);
      assert s == [s[0]] + s[1..];
    }
  }

  /** `remove( 0, 3 )`: the leading `$` and the two-letter talker id go. */
  function DropTalker(field: seq<byte>): (r: seq<byte>)
    ensures |r| == if |field| <= 3 then 0 else |field| - 3
    ensures r == field[|field| - |r|..]
  {
    if |field| <= 3 then [] else field[3..]
  }

  /** The fields of a line: what precedes the first `*`, split at commas. */
  function Fields(line: seq<byte>): (fields: seq<seq<byte>>)
    ensures |fields| >= 1
  {
    Split(line[..StarIndex(line)])
  }

  predicate IsPositionSentence(fields: seq<seq<byte>>)
    requires |fields| >= 1
  {
    (DropTalker(fields[0]) == Gga || DropTalker(fields[0]) == Gns) && |fields| >= MinFieldCount
  }

  /** The values of a GGA/GNS sentence, in the order they are emitted. */
  function PositionEvents(fields: seq<seq<byte>>): seq<NmeaEvent>
    requires |fields| >= MinFieldCount
  {
    [ FixQualityChanged(fields[6]),
      NumSatellitesChanged(fields[7]),
      HdopChanged(fields[8]),
      AgeOfDifferentialDataChanged(fields[13]),
      GlobalPositionChanged(Coordinate(fields[2], fields[3] == South),
                            Coordinate(fields[4], fields[5] == West),
                            fields[9]) ]
  }

  /** The events of a line: only a line with a transmitted checksum is
      considered, whether or not the checksum matches. */
  function SentenceEvents(line: seq<byte>): seq<NmeaEvent>
  {
    var fields := Fields(line);
    if HasChecksum(line) && IsPositionSentence(fields) then PositionEvents(fields) else []
  }

  // ---------------------------------------------------------------------------
  // Properties of one line

  /** Events are emitted exactly for a line with a transmitted checksum whose
      type field, without its first three characters, is GGA or GNS and that
      has at least 14 fields; then the order is fix quality, satellites, HDOP,
      age of the differential data, position; latitude and longitude are the
      third and fifth field, negated exactly for hemisphere S and W. */
  lemma EmittedValues(line: seq<byte>)
    ensures var fields := Fields(line); var events := SentenceEvents(line);
      && (events != [] <==> HasChecksum(line) && IsPositionSentence(fields))
      && (events != [] ==>
            && |events| == 5
            && events[0] == FixQualityChanged(fields[6])
            && events[1] == NumSatellitesChanged(fields[7])
            && events[2] == HdopChanged(fields[8])
            && events[3] == AgeOfDifferentialDataChanged(fields[13])
            && events[4].GlobalPositionChanged?
            && events[4].latitude.text == fields[2]
            && (events[4].latitude.negated <==> fields[3] == South)
            && events[4].longitude.text == fields[4]
            && (events[4].longitude.negated <==> fields[5] == West)
            && events[4].height == fields[9])
  {
  }

  /** A line without a transmitted checksum emits nothing. */
  lemma NoChecksumNoEvents(line: seq<byte>)
    requires !HasChecksum(line)
    ensures SentenceEvents(line) == []
  {
  }

  /** A wrong checksum changes nothing but the log: replacing the two
      transmitted digits by any others gives the same events. */
  lemma MismatchStillProcessed(line: seq<byte>, high: byte, low: byte)
    requires HasChecksum(line)
    ensures var k := StarIndex(line);
      var other := line[..k + 1] + [high, low] + line[k + 3..];
      && StarIndex(other) == k
      && Transmitted(other) == Some(HexByte(high, low))
      && Payload(other) == Payload(line)
      && SentenceEvents(other) == SentenceEvents(line)
  {
    var k := StarIndex(line);
    var other := line[..k + 1] + [high, low] + line[k + 3..];
    assert other[..k + 1] == line[..k + 1];
    assert forall j :: 1 <= j < k ==> other[j] != Star by {
      assert forall j :: 0 <= j <= k ==> other[j] == line[j];
    }
    assert other[k] == Star;
    assert StarIndex(other) == k;
    assert other[..k] == line[..k];
  }

  // ---------------------------------------------------------------------------
  // Lines from the buffer

  /** A line taken from the buffer and the number of bytes it used up. */
  datatype LineRead = LineRead(text: seq<byte>, consumed: nat)

  function LineEnd(buffer: seq<byte>, i: nat): (k: nat)
    requires i <= |buffer|
    ensures i <= k <= |buffer|
    ensures forall j :: i <= j < k ==> buffer[j] != LineFeed
    ensures k < |buffer| ==> buffer[k] == LineFeed
    decreases |buffer| - i
  {
    if i == |buffer| then i else if buffer[i] == LineFeed then i else LineEnd(buffer, i + 1)
  }

  function StripCarriageReturn(s: seq<byte>): seq<byte>
  {
    if |s| > 0 && s[|s| - 1] == CarriageReturn then s[..|s| - 1] else s
  }

  /** Reading one line: there is one only when a line feed has arrived; it
      ends at the first line feed, which is consumed with it, and a carriage
      return before the line feed is not part of it. */
  function NextLine(buffer: seq<byte>): (r: Option<LineRead>)
    ensures r.None? <==> LineFeed !in buffer
    ensures r.Some? ==>
      && 1 <= r.value.consumed <= |buffer|
      && buffer[r.value.consumed - 1] == LineFeed
      && LineFeed !in buffer[..r.value.consumed - 1]
      && r.value.text == StripCarriageReturn(buffer[..r.value.consumed - 1])
  {
    var end := LineEnd(buffer, 0);
    if end == |buffer| then None else Some(LineRead(StripCarriageReturn(buffer[..end]), end + 1))
  }

  /** Reading one line as Qt's `QTextStream::readLineInto` does on the
      buffer: any non-empty buffer yields a line. With a line feed it is the
      line `NextLine` reads; without one it is the whole remainder, less a
      trailing carriage return, and all of the buffer is used up. */
  function ReadLine(buffer: seq<byte>): (r: Option<LineRead>)
    ensures r.None? <==> buffer == []
    ensures r.Some? ==> 1 <= r.value.consumed <= |buffer|
    ensures LineFeed in buffer ==> r == NextLine(buffer)
    ensures buffer != [] && LineFeed !in buffer ==>
      r.value.consumed == |buffer| && r.value.text == StripCarriageReturn(buffer)
  {
    if buffer == [] then None
    else match NextLine(buffer)
      case Some(read) => Some(read)
      case None => Some(LineRead(StripCarriageReturn(buffer), |buffer|))
  }

  // ---------------------------------------------------------------------------
  // Receiving data

  /** The parser's buffer and the values it has emitted so far. */
  datatype ParserState = ParserState(buffer: seq<byte>, emitted: seq<NmeaEvent>)

  /** One `parseData` call on a line read from the front of the buffer. */
  function Consume(s: ParserState, read: Option<LineRead>): ParserState
    requires read.Some? ==> read.value.consumed <= |s.buffer|
  {
    match read
    case None => s
    case Some(line) => ParserState(s.buffer[line.consumed..], s.emitted + SentenceEvents(line.text))
  }

  /** `setData` as written: append the chunk, then parse once, reading the
      line as Qt does. */
  function FeedAsWritten(s: ParserState, chunk: seq<byte>): ParserState
  {
    var buffer := s.buffer + chunk;
    Consume(ParserState(buffer, s.emitted), ReadLine(buffer))
  }

  /** `setData` as intended: a line is read only once its line feed has arrived. */
  function Feed(s: ParserState, chunk: seq<byte>): ParserState
  {
    var buffer := s.buffer + chunk;
    Consume(ParserState(buffer, s.emitted), NextLine(buffer))
  }

  // A GGA sentence with fourteen empty fields and its checksum 7A:
  // "$GPGGA" and thirteen commas, then "*7A", CR and LF.
  const Talker: seq<byte> := [0x24, 0x47, 0x50, 0x47, 0x47, 0x41]
  const EmptyFields: seq<byte> := seq(12, _ => Comma)
  const Trailer: seq<byte> := [Star, 0x37, 0x41, CarriageReturn, LineFeed]
  const WholeText: seq<byte> := Talker + [Comma] + EmptyFields + [Star, 0x37, 0x41]

  /** The sentence cut after its first comma. */
  const SplitHead: seq<byte> := Talker + [Comma]
  const SplitTail: seq<byte> := EmptyFields + Trailer

  /** A line without a `*` emits nothing. */
  lemma NoStarNoEvents(line: seq<byte>)
    requires Star !in line
    ensures SentenceEvents(line) == []
  {
    NoChecksumNoEvents(line);
  }

  /** The first `*` after the leading character, found by position. */
  lemma StarIndexAt(line: seq<byte>, k: nat)
    requires 1 <= k < |line| && line[k] == Star && Star !in line[1..k]
    ensures StarIndex(line) == k
  {
  }

  /** The first line feed, found by position. */
  lemma NextLineAt(buffer: seq<byte>, k: nat)
    requires k < |buffer| && buffer[k] == LineFeed && LineFeed !in buffer[..k]
    ensures NextLine(buffer) == Some(LineRead(StripCarriageReturn(buffer[..k]), k + 1))
  {
  }

  /** A comma-free leading field followed by a comma. */
  lemma {:induction false} SplitLeadingField(a: seq<byte>, b: seq<byte>)
    requires Comma !in a
    ensures Split(a + [Comma] + b) == [a] + Split(b)
    decreases |a|
  {
    var s := a + [Comma] + b;
    if a == [] {
      assert s[1..] == b;
    } else {
      assert s[1..] == a[1..] + [Comma] + b;
      assert Comma !in a[1..] by {
        assert forall c :: c in a[1..] ==> c in a;
      }
      SplitLeadingField(a[1..], b);
      assert [a[0]] + a[1..] == a;
    }
  }

  /** `n` commas make `n + 1` empty fields. */
  lemma {:induction false} SplitCommaRun(n: nat)
    ensures |Split(seq(n, _ => Comma))| == n + 1
  {
    if n > 0 {
      var s: seq<byte> := seq(n, _ => Comma);
      assert s[1..] == seq(n - 1, _ => Comma);
      SplitCommaRun(n - 1);
    }
  }

  /** The first chunk alone, as written: read whole, no `*`, nothing emitted. */
  lemma HeadChunkAsWritten()
    ensures FeedAsWritten(ParserState([], []), SplitHead) == ParserState([], [])
  {
    assert [] + SplitHead == SplitHead;
    assert LineFeed !in SplitHead && Star !in SplitHead;
    assert StripCarriageReturn(SplitHead) == SplitHead;
    NoStarNoEvents(SplitHead);
  }

  /** The second chunk alone, as written: its type field is empty, nothing emitted. */
  lemma TailChunkAsWritten()
    ensures FeedAsWritten(ParserState([], []), SplitTail) == ParserState([], [])
  {
    assert [] + SplitTail == SplitTail;
    assert SplitTail[..16] == EmptyFields + [Star, 0x37, 0x41, CarriageReturn];
    NextLineAt(SplitTail, 16);
    var t := SplitTail[..15];
    assert StripCarriageReturn(SplitTail[..16]) == t;
    assert t[1..12] == seq(11, _ => Comma);
    StarIndexAt(t, 12);
    assert t[..12][0] == Comma;
    assert Fields(t)[0] == [];
  }

  /** The whole sentence in one chunk: one line, five values. */
  lemma WholeSentenceRead()
    ensures NextLine(SplitHead + SplitTail) == Some(LineRead(WholeText, 24))
    ensures |SentenceEvents(WholeText)| == 5
  {
    var w := SplitHead + SplitTail;
    assert w[..23] == WholeText + [CarriageReturn];
    NextLineAt(w, 23);
    assert WholeText[1..19] == Talker[1..] + [Comma] + EmptyFields;
    StarIndexAt(WholeText, 19);
    assert WholeText[..19] == Talker + [Comma] + EmptyFields;
    SplitLeadingField(Talker, EmptyFields);
    SplitCommaRun(12);
    assert DropTalker(Talker) == Gga;
  }

  /** As written, a sentence that arrives in two chunks is lost: the first
      chunk is parsed on its own as a line without a checksum, the second as a
      line whose type field is empty. Arriving in one chunk, it emits its five
      values. */
  lemma SplitSentenceLostAsWritten()
    ensures FeedAsWritten(FeedAsWritten(ParserState([], []), SplitHead), SplitTail) == ParserState([], [])
    ensures |FeedAsWritten(ParserState([], []), SplitHead + SplitTail).emitted| == 5
  {
    HeadChunkAsWritten();
    TailChunkAsWritten();
    WholeSentenceRead();
    assert [] + (SplitHead + SplitTail) == SplitHead + SplitTail;
    assert LineFeed in SplitHead + SplitTail by {
      assert (SplitHead + SplitTail)[23] == LineFeed;
    }
  }

  /** As intended, a sentence emits the same values however it is cut into
      two chunks. */
  lemma {:induction false} SplitSentenceKept(line: seq<byte>, k: nat, emitted: seq<NmeaEvent>)
    requires LineFeed !in line && k <= |line|
    ensures var whole := line + [LineFeed];
      Feed(Feed(ParserState([], emitted), whole[..k]), whole[k..]) == Feed(ParserState([], emitted), whole)
  {
    var whole := line + [LineFeed];
    var start := ParserState([], emitted);
    assert LineFeed !in whole[..k] by {
      assert whole[..k] == line[..k];
      assert forall c :: c in line[..k] ==> c in line;
    }
    assert start.buffer + whole[..k] == whole[..k];
    assert whole[..k] + whole[k..] == start.buffer + whole == whole;
    calc {
      Feed(Feed(start, whole[..k]), whole[k..]);
      Feed(ParserState(whole[..k], emitted), whole[k..]);
      Consume(ParserState(whole, emitted), NextLine(whole));
      Feed(start, whole);
    }
  }

  /** The split sentence of `SplitSentenceLostAsWritten` is kept as intended. */
  lemma SplitExampleKept()
    ensures Feed(Feed(ParserState([], []), SplitHead), SplitTail) == Feed(ParserState([], []), SplitHead + SplitTail)
    ensures |Feed(ParserState([], []), SplitHead + SplitTail).emitted| == 5
  {
    var line := SplitHead + SplitTail[..|SplitTail| - 1];
    assert SplitHead + SplitTail == line + [LineFeed];
    assert line == WholeText + [CarriageReturn];
    assert LineFeed !in line;
    assert (line + [LineFeed])[..|SplitHead|] == SplitHead;
    assert (line + [LineFeed])[|SplitHead|..] == SplitTail;
    SplitSentenceKept(line, |SplitHead|, []);
    WholeSentenceRead();
    assert [] + (SplitHead + SplitTail) == SplitHead + SplitTail;
  }

  // ---------------------------------------------------------------------------
  // The parser

  /** The checksum loop: XORs the characters from index 1 on until the first
      `*`, reads the two characters after it as the transmitted checksum if
      they are there, and cuts the line at the `*`. */
  method ScanChecksum(line: seq<byte>)
    returns (checksum: byte, hasChecksum: bool, checksumFromNmeaSentence: byte, currentLine: seq<byte>)
    ensures checksum == Xor(Payload(line))
    ensures hasChecksum == HasChecksum(line)
    ensures hasChecksum ==> Some(checksumFromNmeaSentence) == Transmitted(line)
    ensures currentLine == line[..StarIndex(line)]
  {
    checksum := 0;
    hasChecksum := false;
    checksumFromNmeaSentence := 0;
    currentLine := line;

    // index 0 ('$') is not part of the checksum
    var i := 1;
    while i < |currentLine|
      invariant currentLine == line
      invariant |line| == 0 ==> i == 1 && checksum == 0
      invariant |line| > 0 ==> 1 <= i <= |line| && checksum == Xor(line[1..i])
      invariant forall j :: 1 <= j < i ==> line[j] != Star
      invariant !hasChecksum
    {
      var c := currentLine[i];
      if c == Star {
        if i + 3 <= |currentLine| {
          checksumFromNmeaSentence := HexByte(currentLine[i + 1], currentLine[i + 2]);
          hasChecksum := true;
        }
        // everything from the '*' on is dropped, with or without a checksum
        currentLine := currentLine[..i];
        break;
      } else {
        XorStep(line, i);
        checksum := checksum ^ c;
      }
      i := i + 1;
    }
    assert StarIndex(line) == (if |line| == 0 then 0 else i);
  }

  /** The field dispatch of a GGA/GNS sentence: the field iterator is stepped
      over the fields, emitting as it goes. */
  method EmitPositionEvents(nmeaFields: seq<seq<byte>>) returns (events: seq<NmeaEvent>)
    requires |nmeaFields| >= MinFieldCount
    ensures events == PositionEvents(nmeaFields)
  {
    events := [];
    var it := 1;            // skip the type field
    it := it + 1;           // skip UTC time
    var latitude := nmeaFields[it];
    it := it + 1;
    var latitudeSouth := nmeaFields[it] == South;
    it := it + 1;
    var longitude := nmeaFields[it];
    it := it + 1;
    var longitudeWest := nmeaFields[it] == West;
    it := it + 1;
    events := events + [FixQualityChanged(nmeaFields[it])];
    it := it + 1;
    events := events + [NumSatellitesChanged(nmeaFields[it])];
    it := it + 1;
    events := events + [HdopChanged(nmeaFields[it])];
    it := it + 1;
    var height := nmeaFields[it];
    it := it + 1;
    it := it + 1;           // skip the unit of the height
    it := it + 1;           // skip the geoid separation
    it := it + 1;           // skip its unit
    events := events + [AgeOfDifferentialDataChanged(nmeaFields[it])];
    events := events + [GlobalPositionChanged(Coordinate(latitude, latitudeSouth),
                                              Coordinate(longitude, longitudeWest), height)];
  }

  /** Parses one line: the checksum loop, then the field dispatch. */
  method ParseSentence(line: seq<byte>) returns (r: SentenceResult)
    ensures r.checksum == Xor(Payload(line))
    ensures r.transmitted == Transmitted(line)
    ensures r.events == SentenceEvents(line)
  {
    var checksum, hasChecksum, checksumFromNmeaSentence, currentLine := ScanChecksum(line);

    var nmeaFields := Split(currentLine);
    // cut off the first three characters: '$' and the talker id
    nmeaFields := nmeaFields[0 := DropTalker(nmeaFields[0])];

    var events: seq<NmeaEvent> := [];
    if hasChecksum {
      // a checksum mismatch is only logged
      if nmeaFields[0] == Gga || nmeaFields[0] == Gns {
        if |nmeaFields| >= MinFieldCount {
          events := EmitPositionEvents(nmeaFields);
          assert PositionEvents(nmeaFields) == PositionEvents(Fields(line));
        }
      }
    }
    r := SentenceResult(checksum, if hasChecksum then Some(checksumFromNmeaSentence) else None, events);
  }

  class NmeaParser {
    /** Bytes received but not yet parsed. */
    var dataToParse: seq<byte>

    /** Every value emitted so far, in order. */
    ghost var emitted: seq<NmeaEvent>

    constructor ()
      ensures dataToParse == [] && emitted == []
    {
      dataToParse := [];
      emitted := [];
    }

    /** Appends the received bytes, then parses once. */
    method SetData(data: seq<byte>)
      modifies this
      ensures var buffer := old(dataToParse) + data;
        match NextLine(buffer)
        case None => dataToParse == buffer && emitted == old(emitted)
        case Some(read) =>
          dataToParse == buffer[read.consumed..] && emitted == old(emitted) + SentenceEvents(read.text)
      ensures ParserState(dataToParse, emitted) == Feed(ParserState(old(dataToParse), old(emitted)), data)
    {
      dataToParse := dataToParse + data;
      ParseData();
    }

    /** Parses at most one line from the front of the buffer and removes it;
        without a complete line nothing happens. */
    method ParseData()
      modifies this
      ensures match NextLine(old(dataToParse))
        case None => dataToParse == old(dataToParse) && emitted == old(emitted)
        case Some(read) =>
          dataToParse == old(dataToParse)[read.consumed..] && emitted == old(emitted) + SentenceEvents(read.text)
    {
      var read := NextLine(dataToParse);
      if read.Some? {
        var result := ParseSentence(read.value.text);
        emitted := emitted + result.events;
        dataToParse := dataToParse[read.value.consumed..];
      }
    }
  }
}
