/** The header at the start of a backup file. */
module BackupHeader {
  import opened Outcomes
  import opened Bytes

  const MAGIC: seq<byte> := [0x73, 0x64, 0x62, 0x6b, 0x70, 0x31]   // "sdbkp1"

  const U32_MAX: nat := 0xFFFF_FFFF

  /** The fixed part: the magic, two ids, the time and the length of the name. */
  const FIXED_LEN: nat := 58

  /** The sixteen bytes of an id in network order. */
  type Uuid = u: seq<byte> | |u| == 16 witness seq(16, _ => 0)

  type U128 = n: nat | n < Span(16) witness (assert Span(16) > 0; 0)

  /** A name is kept as the bytes of its UTF-8 form. */
  datatype Header = Header(id: Uuid, timestamp: U128, libraryId: Uuid, libraryName: seq<byte>)

  datatype BackupError = FileIO | MalformedHeader

  datatype Parsed = Parsed(header: Header, rest: seq<byte>)

  /** The mixed-endian form: the first three fields of the id are byte-swapped. It is its own inverse. */
  function SwapFields(u: Uuid): Uuid {
    [u[3], u[2], u[1], u[0], u[5], u[4], u[7], u[6]] + u[8..]
  }

  /* ----- UTF-8, by section 4 of RFC 3629 ----- */

  predicate Tail(b: byte) {
    0x80 <= b <= 0xBF
  }

  /** The length of the character at the start, or 0 if there is none. */
  function CharLen(s: seq<byte>): (n: nat)
    requires s != []
    ensures n <= |s|
  {
    var b := s[0];
    if b <= 0x7F then 1
    else if 0xC2 <= b <= 0xDF && |s| >= 2 && Tail(s[1]) then 2
    else if 0xE0 <= b <= 0xEF && |s| >= 3 && Tail(s[1]) && Tail(s[2])
            && (b == 0xE0 ==> s[1] >= 0xA0) && (b == 0xED ==> s[1] <= 0x9F) then 3
    else if 0xF0 <= b <= 0xF4 && |s| >= 4 && Tail(s[1]) && Tail(s[2]) && Tail(s[3])
            && (b == 0xF0 ==> s[1] >= 0x90) && (b == 0xF4 ==> s[1] <= 0x8F) then 4
    else 0
  }

  predicate Utf8(s: seq<byte>)
    decreases |s|
  {
    s == [] || (CharLen(s) > 0 && Utf8(s[CharLen(s)..]))
  }

  /* ----- writing and reading ----- */

  function Stored(name: seq<byte>): (r: seq<byte>)
    ensures |r| <= U32_MAX
  {
    if |name| > U32_MAX then name[..U32_MAX] else name
  }

  function Fixed(h: Header): (r: seq<byte>)
    ensures |r| == FIXED_LEN
  {
    MAGIC + SwapFields(h.id) + LittleEndian(h.timestamp, 16) + SwapFields(h.libraryId) + LittleEndian(|Stored(h.libraryName)|, 4)
  }

  function Written(h: Header): seq<byte> {
    Fixed(h) + Stored(h.libraryName)
  }

  function ReadHeader(input: seq<byte>): Result<Parsed, BackupError> {
    if |input| < FIXED_LEN then Err(FileIO)
    else if input[..6] != MAGIC then Err(MalformedHeader)
    else
      var len := LittleValue(input[54..58]);
      if |input| < FIXED_LEN + len then Err(FileIO)
      else
        var name := input[58..58 + len];
        if !Utf8(name) then Err(MalformedHeader)
        else
          LittleOfValue(input[22..38]);
          Ok(Parsed(Header(SwapFields(input[6..22]), LittleValue(input[22..38]), SwapFields(input[38..54]), name), input[58 + len..]))
  }

  lemma SwapTwice(u: Uuid)
    ensures SwapFields(SwapFields(u)) == u
  {
  }

  lemma Spans()
    ensures Span(4) == U32_MAX + 1
  {
    assert Span(1) == 256 && Span(2) == 65536 && Span(3) == 0x100_0000;
  }

  /** Where the fields of the fixed part lie. */
  lemma FixedFields(h: Header, rest: seq<byte>)
    ensures var input := Fixed(h) + rest;
            && input[..6] == MAGIC && input[6..22] == SwapFields(h.id) && input[22..38] == LittleEndian(h.timestamp, 16)
            && input[38..54] == SwapFields(h.libraryId) && input[54..58] == LittleEndian(|Stored(h.libraryName)|, 4)
            && input[58..] == rest
  {
    hide LittleEndian, SwapFields, Stored;
  }

  lemma ReadWritten(h: Header, rest: seq<byte>)
    ensures ReadHeader(Written(h) + rest)
            == if Utf8(Stored(h.libraryName)) then Ok(Parsed(h.(libraryName := Stored(h.libraryName)), rest)) else Err(MalformedHeader)
  {
    var name := Stored(h.libraryName);
    var input := Written(h) + rest;
    assert input == Fixed(h) + (name + rest);
    FixedFields(h, name + rest);
    Spans();
    LittleRoundTrip(|name|, 4);
    LittleRoundTrip(h.timestamp, 16);
    SwapTwice(h.id);
    SwapTwice(h.libraryId);
    assert input[58..58 + |name|] == (name + rest)[..|name|] == name;
    assert input[58 + |name|..] == (name + rest)[|name|..] == rest;
    hide LittleEndian, LittleValue, SwapFields, Stored, Utf8, Fixed;
  }

  /** What is read accounts for every byte consumed: there is one input for each header. */
  lemma ReadIsWritten(input: seq<byte>)
    requires ReadHeader(input).Ok?
    ensures var p := ReadHeader(input).value;
            Utf8(p.header.libraryName) && |p.header.libraryName| <= U32_MAX && input == Written(p.header) + p.rest
  {
    var p := ReadHeader(input).value;
    LittleOfValue(input[22..38]);
    LittleOfValue(input[54..58]);
    Spans();
    SwapTwice(input[6..22]);
    SwapTwice(input[38..54]);
    var name := p.header.libraryName;
    assert Stored(name) == name;
    assert Fixed(p.header) == input[..6] + input[6..22] + input[22..38] + input[38..54] + input[54..58];
    Pieces(input, |name|);
  }

  lemma Pieces(input: seq<byte>, len: nat)
    requires |input| >= FIXED_LEN + len
    ensures input == input[..6] + input[6..22] + input[22..38] + input[38..54] + input[54..58] + input[58..58 + len] + input[58 + len..]
  {
  }

  /**
   Reading inverts writing, both ways: a header and a rest are read exactly from the header's own
   bytes followed by that rest, for the names whose length fits.
   */
  lemma ReadExactlyWhatIsWritten(input: seq<byte>, h: Header, rest: seq<byte>)
    ensures ReadHeader(input) == Ok(Parsed(h, rest))
            <==> Utf8(h.libraryName) && |h.libraryName| <= U32_MAX && input == Written(h) + rest
  {
    if ReadHeader(input) == Ok(Parsed(h, rest)) {
      ReadIsWritten(input);
    } else {
      ReadWritten(h, rest);
    }
  }

  /** A name that does not fit is cut, so the header read back is another one, or none. */
  lemma RoundTripsExactlyIfNameFits(h: Header, rest: seq<byte>)
    requires Utf8(h.libraryName)
    ensures ReadHeader(Written(h) + rest) == Ok(Parsed(h, rest)) <==> |h.libraryName| <= U32_MAX
  {
    ReadWritten(h, rest);
  }

  /** An id as it lies in a file: its first three fields each back to front, the rest as it is. */
  ghost predicate LiesAt(input: seq<byte>, at: nat, u: Uuid) {
    && at + 16 <= |input|
    && input[at] == u[3] && input[at + 1] == u[2] && input[at + 2] == u[1] && input[at + 3] == u[0]
    && input[at + 4] == u[5] && input[at + 5] == u[4] && input[at + 6] == u[7] && input[at + 7] == u[6]
    && forall i :: 8 <= i < 16 ==> input[at + i] == u[i]
  }

  ghost predicate HasMagic(input: seq<byte>) {
    |input| >= 6 && forall i :: 0 <= i < 6 ==> input[i] == "sdbkp1"[i] as int
  }

  /** The bytes of a header, one by one. */
  lemma WrittenLayout(h: Header)
    requires |h.libraryName| <= U32_MAX
    ensures var w := Written(h);
            && |w| == 58 + |h.libraryName|
            && HasMagic(w)
            && LiesAt(w, 6, h.id) && LiesAt(w, 38, h.libraryId)
            && (forall i :: 0 <= i < 16 ==> w[22 + i] == h.timestamp / Span(i) % 256)
            && (forall i :: 0 <= i < 4 ==> w[54 + i] == |h.libraryName| / Span(i) % 256)
            && (forall i :: 0 <= i < |h.libraryName| ==> w[58 + i] == h.libraryName[i])
  {
    var w, name := Written(h), h.libraryName;
    assert Stored(name) == name && w == Fixed(h) + name;
    FixedFields(h, name);
    forall i | 0 <= i < 16 ensures w[22 + i] == h.timestamp / Span(i) % 256 {
      LittleDigits(h.timestamp, 16, i);
      assert w[22 + i] == w[22..38][i];
    }
    forall i | 0 <= i < 4 ensures w[54 + i] == |name| / Span(i) % 256 {
      LittleDigits(|name|, 4, i);
      assert w[54 + i] == w[54..58][i];
    }
    IdLies(w, 6, h.id);
    IdLies(w, 38, h.libraryId);
    MagicIsText(w);
    hide LittleEndian, SwapFields, Stored, Fixed, Span, LiesAt;
    forall i | 0 <= i < |name| ensures w[58 + i] == name[i] {
      assert w[58 + i] == w[58..][i];
    }
  }

  lemma MagicIsText(w: seq<byte>)
    requires |w| >= 6
    ensures w[..6] == MAGIC <==> HasMagic(w)
  {
    assert forall i :: 0 <= i < 6 ==> w[i] == w[..6][i];
    assert forall i :: 0 <= i < 6 ==> MAGIC[i] == "sdbkp1"[i] as int;
  }

  lemma IdLies(w: seq<byte>, at: nat, u: Uuid)
    requires at + 16 <= |w| && w[at..at + 16] == SwapFields(u)
    ensures LiesAt(w, at, u)
  {
    var s := w[at..at + 16];
    assert forall i :: 0 <= i < 16 ==> w[at + i] == s[i];
    assert w[at] == s[0];
  }

  /** A file that ends inside the header is reported as such, wherever it ends. */
  lemma TruncationIsReported(h: Header, n: nat)
    requires n < |Written(h)|
    ensures ReadHeader(Written(h)[..n]) == Err(FileIO)
  {
    if n >= FIXED_LEN {
      var input := Written(h)[..n];
      assert input == Fixed(h) + Stored(h.libraryName)[..n - FIXED_LEN];
      FixedFields(h, Stored(h.libraryName)[..n - FIXED_LEN]);
      Spans();
      LittleRoundTrip(|Stored(h.libraryName)|, 4);
    }
  }

  /** The name's length as the four bytes before it state it. */
  function StatedLength(input: seq<byte>): nat
    requires |input| >= 58
  {
    var a: nat, b: nat, c: nat, d: nat := input[54], input[55], input[56], input[57];
    a + 0x100 * b + 0x1_0000 * c + 0x100_0000 * d
  }

  lemma FourBytes(a: byte, b: byte, c: byte, d: byte)
    ensures LittleValue([a, b, c, d]) == (a as nat) + 0x100 * (b as nat) + 0x1_0000 * (c as nat) + 0x100_0000 * (d as nat)
  {
    assert [a, b, c, d][1..] == [b, c, d] && [b, c, d][1..] == [c, d] && [c, d][1..] == [d] && [d][1..] == [];
    assert LittleValue([d]) == d as nat;
    assert LittleValue([c, d]) == c as nat + 256 * d as nat;
  }

  /** Which of the two errors there is: an i/o error for a missing byte, a malformed header for a wrong one. */
  lemma ErrorsExactly(input: seq<byte>)
    ensures ReadHeader(input) == Err(FileIO)
            <==> |input| < 58 || (HasMagic(input) && |input| < 58 + StatedLength(input))
    ensures ReadHeader(input) == Err(MalformedHeader)
            <==> |input| >= 58 && (HasMagic(input) ==> |input| >= 58 + StatedLength(input) && !Utf8(input[58..58 + StatedLength(input)]))
  {
    if |input| >= 58 {
      var four := input[54..58];
      assert four == [input[54]] + [input[55], input[56], input[57]];
      FourBytes(input[54], input[55], input[56], input[57]);
      assert four == [input[54], input[55], input[56], input[57]];
      MagicIsText(input);
    }
    hide LittleValue, LittleEndian, SwapFields, Utf8, HasMagic, StatedLength;
  }

  /* ----- the program ----- */

  class Stream {
    var content: seq<byte>
    var pos: nat

    constructor (content: seq<byte>)
      ensures this.content == content && pos == 0
    {
      this.content, pos := content, 0;
    }

    method WriteAll(bytes: seq<byte>)
      modifies this
      ensures content == old(content) + bytes && pos == old(pos)
    {
      content := content + bytes;
    }

    method ReadExact(buf: array<byte>) returns (ok: bool)
      requires pos <= |content|
      modifies this, buf
      ensures content == old(content) && pos <= |content|
      ensures ok <==> old(pos) + buf.Length <= |content|
      ensures ok ==> pos == old(pos) + buf.Length && buf[..] == content[old(pos)..pos]
    {
      ok := pos + buf.Length <= |content|;
      if ok {
        for i := 0 to buf.Length
          invariant content == old(content) && pos == old(pos) && buf[..i] == content[pos..pos + i]
        {
          buf[i] := content[pos + i];
        }
        pos := pos + buf.Length;
      }
    }
  }

  method Write(h: Header, file: Stream)
    modifies file
    ensures file.content == old(file.content) + Written(h) && file.pos == old(file.pos)
  {
    hide SwapFields, LittleEndian;
    file.WriteAll(MAGIC);
    file.WriteAll(SwapFields(h.id));
    file.WriteAll(LittleEndian(h.timestamp, 16));
    file.WriteAll(SwapFields(h.libraryId));
    var bytes := h.libraryName[..if U32_MAX < |h.libraryName| then U32_MAX else |h.libraryName|];
    file.WriteAll(LittleEndian(|bytes|, 4));
    file.WriteAll(bytes);
  }

  /** The header that the fixed part and the name make. */
  function HeaderOf(head: seq<byte>, name: seq<byte>): Header
    requires |head| == FIXED_LEN
  {
    LittleOfValue(head[22..38]);
    Header(SwapFields(head[6..22]), LittleValue(head[22..38]), SwapFields(head[38..54]), name)
  }

  /** Reading in two pieces, the fixed part and then the name. */
  lemma ReadInPieces(input: seq<byte>, head: seq<byte>)
    requires |input| >= FIXED_LEN && head == input[..FIXED_LEN]
    ensures var len := LittleValue(head[54..58]);
            ReadHeader(input) ==
              if head[..6] != MAGIC then Err(MalformedHeader)
              else if |input| < FIXED_LEN + len then Err(FileIO)
              else if !Utf8(input[58..58 + len]) then Err(MalformedHeader)
              else Ok(Parsed(HeaderOf(head, input[58..58 + len]), input[58 + len..]))
  {
    assert head[..6] == input[..6] && head[6..22] == input[6..22] && head[22..38] == input[22..38];
    assert head[38..54] == input[38..54] && head[54..58] == input[54..58];
    hide LittleValue, SwapFields, Utf8;
  }

  method Read(file: Stream) returns (r: Result<Header, BackupError>)
    requires file.pos <= |file.content|
    modifies file
    ensures file.content == old(file.content) && file.pos <= |file.content|
    ensures var parsed := ReadHeader(file.content[old(file.pos)..]);
            if parsed.Ok? then r == Ok(parsed.value.header) && file.content[file.pos..] == parsed.value.rest
            else r == Err(parsed.error)
  {
    ghost var start, input := file.pos, file.content[file.pos..];
    var buf := new byte[FIXED_LEN];
    var ok := file.ReadExact(buf);
    if !ok {
      return Err(FileIO);
    }
    var head := buf[..];
    assert head == input[..FIXED_LEN];
    ReadInPieces(input, head);
    hide ReadHeader, HeaderOf, LittleValue, Utf8;
    if head[..6] != MAGIC {
      return Err(MalformedHeader);
    }
    var len := LittleValue(head[54..58]);
    var name := new byte[len];
    ok := file.ReadExact(name);
    if !ok {
      return Err(FileIO);
    }
    assert name[..] == input[FIXED_LEN..FIXED_LEN + len] && file.content[file.pos..] == input[FIXED_LEN + len..];
    if !Utf8(name[..]) {
      return Err(MalformedHeader);
    }
    r := Ok(HeaderOf(head, name[..]));
  }
}
