/**
 Content ids: a small file is hashed whole, a larger one by its header, four samples and its footer.
 The digest itself is a parameter; what is modelled is the input it is fed.
 */
module CasId {
  import opened Outcomes
  import opened Bytes

  const SAMPLE_COUNT: nat := 4
  const SAMPLE_SIZE: nat := 10240
  const HEADER_OR_FOOTER_SIZE: nat := 8192
  const MINIMUM_FILE_SIZE: nat := 102400

  /** A digest in hexadecimal. */
  type Hex = s: string | |s| == 64 witness seq(64, _ => '0')

  datatype IoError = UnexpectedEof

  datatype Window = Window(start: nat, size: nat)

  function SeekJump(size: nat): nat
    requires size > MINIMUM_FILE_SIZE
  {
    (size - HEADER_OR_FOOTER_SIZE * 2) / SAMPLE_COUNT
  }

  function Sample(size: nat, j: nat): Window
    requires size > MINIMUM_FILE_SIZE
  {
    Window(HEADER_OR_FOOTER_SIZE + SeekJump(size) * j, SAMPLE_SIZE)
  }

  /** The samples are placed by the size the caller gives, the footer by the length of the file. */
  function Windows(size: nat, length: nat): seq<Window>
    requires size > MINIMUM_FILE_SIZE && length >= HEADER_OR_FOOTER_SIZE
  {
    [Window(0, HEADER_OR_FOOTER_SIZE),
     Sample(size, 0), Sample(size, 1), Sample(size, 2), Sample(size, 3),
     Window(length - HEADER_OR_FOOTER_SIZE, HEADER_OR_FOOTER_SIZE)]
  }

  predicate Inside(w: Window, length: nat) {
    w.start + w.size <= length
  }

  function Slice(content: seq<byte>, w: Window): (r: seq<byte>)
    requires Inside(w, |content|)
    ensures |r| == w.size
  {
    content[w.start..w.start + w.size]
  }

  ghost predicate AllInside(ws: seq<Window>, length: nat) {
    forall i :: 0 <= i < |ws| ==> Inside(ws[i], length)
  }

  function Gather(content: seq<byte>, ws: seq<Window>): seq<byte>
    requires AllInside(ws, |content|)
  {
    if ws == [] then [] else Slice(content, ws[0]) + Gather(content, ws[1..])
  }

  /** A file long enough for the samples that its stated size asks for. */
  predicate LongEnough(content: seq<byte>, size: nat) {
    size > MINIMUM_FILE_SIZE ==> |content| >= HEADER_OR_FOOTER_SIZE + SeekJump(size) * 3 + SAMPLE_SIZE
  }

  lemma WindowsInside(size: nat, length: nat)
    requires size > MINIMUM_FILE_SIZE && length >= HEADER_OR_FOOTER_SIZE + SeekJump(size) * 3 + SAMPLE_SIZE
    ensures AllInside(Windows(size, length), length)
  {
  }

  function HashInput(content: seq<byte>, size: nat): (r: seq<byte>)
    requires LongEnough(content, size)
  {
    LittleEndian(size, 8)
    + if size <= MINIMUM_FILE_SIZE then content
      else (WindowsInside(size, |content|); Gather(content, Windows(size, |content|)))
  }

  function CasIdOf(digest: seq<byte> -> Hex, content: seq<byte>, size: nat): Result<string, IoError> {
    if LongEnough(content, size) then
      Ok(digest(HashInput(content, size))[..16])
    else Err(UnexpectedEof)
  }

  /* ----- the windows ----- */

  predicate Disjoint(a: Window, b: Window) {
    a.start + a.size <= b.start || b.start + b.size <= a.start
  }

  /** A file as long as its stated size always has room, and no byte of it is read twice. */
  lemma WindowsAreDisjoint(size: nat)
    requires size > MINIMUM_FILE_SIZE
    ensures AllInside(Windows(size, size), size)
    ensures forall i, j :: 0 <= i < j < 6 ==> Disjoint(Windows(size, size)[i], Windows(size, size)[j])
  {
    var jump := SeekJump(size);
    assert jump >= 2 * SAMPLE_SIZE && 4 * jump <= size - HEADER_OR_FOOTER_SIZE * 2;
  }

  lemma {:induction false} GatherAppend(content: seq<byte>, ws: seq<Window>, w: Window)
    requires AllInside(ws, |content|) && Inside(w, |content|)
    ensures Gather(content, ws + [w]) == Gather(content, ws) + Slice(content, w)
    decreases |ws|
  {
    if ws != [] {
      assert (ws + [w])[1..] == ws[1..] + [w];
      GatherAppend(content, ws[1..], w);
    } else {
      assert [w][1..] == [] && ws + [w] == [w];
    }
  }

  lemma Split(a: seq<byte>, b: seq<byte>, c: seq<byte>, d: seq<byte>)
    requires |a| == |c|
    ensures a + b == c + d <==> a == c && b == d
  {
    if a + b == c + d {
      assert a == (a + b)[..|a|] && c == (c + d)[..|a|];
      assert b == (a + b)[|a|..] && d == (c + d)[|a|..];
    }
  }

  lemma {:induction false} GatherIsInjective(a: seq<byte>, b: seq<byte>, ws: seq<Window>)
    requires AllInside(ws, |a|) && AllInside(ws, |b|)
    ensures |Gather(a, ws)| == |Gather(b, ws)|
    ensures Gather(a, ws) == Gather(b, ws) <==> forall i :: 0 <= i < |ws| ==> Slice(a, ws[i]) == Slice(b, ws[i])
    decreases |ws|
  {
    if ws != [] {
      var rest := ws[1..];
      GatherIsInjective(a, b, rest);
      Split(Slice(a, ws[0]), Gather(a, rest), Slice(b, ws[0]), Gather(b, rest));
      assert forall i :: 0 < i < |ws| ==> ws[i] == rest[i - 1];
      assert forall i :: 0 <= i < |rest| ==> rest[i] == ws[i + 1];
    }
  }

  function Total(ws: seq<Window>): nat {
    if ws == [] then 0 else ws[0].size + Total(ws[1..])
  }

  lemma {:induction false} GatherLength(content: seq<byte>, ws: seq<Window>)
    requires AllInside(ws, |content|)
    ensures |Gather(content, ws)| == Total(ws)
    decreases |ws|
  {
    if ws != [] {
      GatherLength(content, ws[1..]);
    }
  }

  /** The input of a sampled file always has the same length. */
  lemma SampledInputLength(content: seq<byte>, size: nat)
    requires size > MINIMUM_FILE_SIZE && LongEnough(content, size)
    ensures |HashInput(content, size)| == 57352
  {
    WindowsInside(size, |content|);
    var ws := Windows(size, |content|);
    GatherLength(content, ws);
    assert ws[4..] == [ws[4]] + [ws[5]] && Total([ws[5]]) == ws[5].size;
    assert ws[3..][1..] == ws[4..] && ws[2..][1..] == ws[3..] && ws[1..][1..] == ws[2..];
    assert Total(ws[4..]) == ws[4].size + ws[5].size;
    assert Total(ws[2..]) == ws[2].size + Total(ws[3..]);
  }

  /** Two sampled files of one size agree on every window. */
  ghost predicate SameWindows(a: seq<byte>, b: seq<byte>)
    requires |a| == |b| > MINIMUM_FILE_SIZE
  {
    WindowsAreDisjoint(|a|);
    forall i :: 0 <= i < 6 ==> Slice(a, Windows(|a|, |a|)[i]) == Slice(b, Windows(|a|, |a|)[i])
  }

  /** Two files of less than 2^64 bytes get the same input exactly when they have the same size and agree on all that is read. */
  lemma InputsAgreeExactly(a: seq<byte>, b: seq<byte>)
    requires |a| < Span(8) && |b| < Span(8)
    ensures LongEnough(a, |a|) && LongEnough(b, |b|)
    ensures HashInput(a, |a|) == HashInput(b, |b|)
            <==> |a| == |b| && if |a| <= MINIMUM_FILE_SIZE then a == b else SameWindows(a, b)
  {
    if |a| > MINIMUM_FILE_SIZE {
      WindowsAreDisjoint(|a|);
    }
    if |b| > MINIMUM_FILE_SIZE {
      WindowsAreDisjoint(|b|);
    }
    LittleRoundTrip(|a|, 8);
    LittleRoundTrip(|b|, 8);
    var x, y := HashInput(a, |a|)[8..], HashInput(b, |b|)[8..];
    Split(LittleEndian(|a|, 8), x, LittleEndian(|b|, 8), y);
    if |a| == |b| > MINIMUM_FILE_SIZE {
      GatherIsInjective(a, b, Windows(|a|, |a|));
    }
  }

  /** A byte outside every window can change without being noticed. */
  lemma UnsampledByteIsNotSeen(a: seq<byte>, i: nat, x: byte)
    requires MINIMUM_FILE_SIZE < |a| < Span(8) && i < |a|
    requires forall k :: 0 <= k < 6 ==> !(Windows(|a|, |a|)[k].start <= i < Windows(|a|, |a|)[k].start + Windows(|a|, |a|)[k].size)
    ensures LongEnough(a, |a|) && LongEnough(a[i := x], |a|)
    ensures HashInput(a[i := x], |a|) == HashInput(a, |a|)
  {
    InputsAgreeExactly(a, a[i := x]);
    WindowsAreDisjoint(|a|);
  }

  ghost function Flat(parts: seq<seq<byte>>): seq<byte> {
    if parts == [] then [] else parts[0] + Flat(parts[1..])
  }

  /** The header, four samples whose starts are `jump` apart, and the footer. */
  ghost function SixParts(content: seq<byte>, jump: nat): (parts: seq<seq<byte>>)
    requires 18432 + 3 * jump <= |content|
    ensures |parts| == 6
  {
    [content[0..8192], content[8192..18432], content[8192 + jump..18432 + jump], content[8192 + 2 * jump..18432 + 2 * jump],
     content[8192 + 3 * jump..18432 + 3 * jump], content[|content| - 8192..|content|]]
  }

  lemma EnoughForSamples(content: seq<byte>, size: nat)
    requires size > 102400
    ensures LongEnough(content, size) ==> 18432 + 3 * ((size - 16384) / 4) <= |content|
  {
  }

  /** What is hashed of a file after its size: all of it up to 100 KiB, else its header, four samples of 10 KiB and its footer. */
  ghost function ReadOf(content: seq<byte>, size: nat): seq<byte>
    requires LongEnough(content, size)
  {
    if size <= 102400 then content
    else
      EnoughForSamples(content, size);
      Flat(SixParts(content, (size - 16384) / 4))
  }

  ghost function SixWindows(jump: nat, length: nat): (ws: seq<Window>)
    requires length >= 8192
    ensures |ws| == 6
  {
    [Window(0, 8192), Window(8192, 10240), Window(8192 + jump, 10240), Window(8192 + 2 * jump, 10240),
     Window(8192 + 3 * jump, 10240), Window(length - 8192, 8192)]
  }

  lemma WindowsAreSix(size: nat, length: nat)
    requires size > MINIMUM_FILE_SIZE && length >= HEADER_OR_FOOTER_SIZE
    ensures Windows(size, length) == SixWindows((size - 16384) / 4, length)
  {
  }

  lemma {:induction false} GatherIsFlat(content: seq<byte>, ws: seq<Window>, parts: seq<seq<byte>>)
    requires AllInside(ws, |content|) && |ws| == |parts|
    requires forall i :: 0 <= i < |ws| ==> parts[i] == content[ws[i].start..ws[i].start + ws[i].size]
    ensures Gather(content, ws) == Flat(parts)
    decreases |ws|
  {
    if ws != [] {
      GatherIsFlat(content, ws[1..], parts[1..]);
    }
  }

  lemma WindowOfPart(content: seq<byte>, jump: nat, i: nat)
    requires 18432 + 3 * jump <= |content| && i < 6
    ensures var w := SixWindows(jump, |content|)[i];
            Inside(w, |content|) && SixParts(content, jump)[i] == content[w.start..w.start + w.size]
  {
  }

  lemma PartsAreGathered(content: seq<byte>, jump: nat)
    requires 18432 + 3 * jump <= |content|
    ensures AllInside(SixWindows(jump, |content|), |content|)
    ensures Gather(content, SixWindows(jump, |content|)) == Flat(SixParts(content, jump))
  {
    hide Gather, Flat, SixWindows, SixParts;
    var ws, parts := SixWindows(jump, |content|), SixParts(content, jump);
    forall i | 0 <= i < 6 ensures Inside(ws[i], |content|) && parts[i] == content[ws[i].start..ws[i].start + ws[i].size] {
      WindowOfPart(content, jump, i);
    }
    GatherIsFlat(content, ws, parts);
  }

  lemma InputIsReadOf(content: seq<byte>, size: nat)
    requires LongEnough(content, size)
    ensures HashInput(content, size) == LittleEndian(size, 8) + ReadOf(content, size)
  {
    if size > MINIMUM_FILE_SIZE {
      LargeInput(content, size);
      EnoughForSamples(content, size);
      WindowsAreSix(size, |content|);
      PartsAreGathered(content, (size - 16384) / 4);
      hide Windows, SixWindows, SixParts, Gather, Flat, HashInput, LittleEndian;
    }
  }

  /* ----- the program ----- */

  class File {
    const content: seq<byte>
    var pos: nat

    constructor (content: seq<byte>)
      ensures this.content == content && pos == 0
    {
      this.content, pos := content, 0;
    }

    /** Fills the first `n` bytes of the buffer, or fails at the end of the file. */
    method ReadExact(buf: array<byte>, n: nat) returns (r: Result<nat, IoError>)
      requires n <= buf.Length
      modifies this, buf
      ensures r.Ok? <==> old(pos) + n <= |content|
      ensures r.Ok? ==> r.value == n && pos == old(pos) + n && buf[..n] == content[old(pos)..old(pos) + n]
    {
      if pos + n > |content| {
        return Err(UnexpectedEof);
      }
      for i := 0 to n
        invariant pos == old(pos) && buf[..i] == content[pos..pos + i]
      {
        buf[i] := content[pos + i];
      }
      pos := pos + n;
      return Ok(n);
    }

    method Seek(to: nat) returns (at: nat)
      modifies this
      ensures pos == to && at == to
    {
      pos, at := to, to;
    }
  }

  /** A sample past the end of the file leaves no room for the last one either. */
  lemma SampleMissing(content: seq<byte>, size: nat, j: nat)
    requires size > MINIMUM_FILE_SIZE && j <= 3 && !Inside(Sample(size, j), |content|)
    ensures !LongEnough(content, size)
  {
    assert SeekJump(size) * j <= SeekJump(size) * 3;
  }

  /** Where the loop is after `j` jumps. */
  lemma SamplePlace(size: nat, length: nat, j: nat)
    requires size > MINIMUM_FILE_SIZE && length >= HEADER_OR_FOOTER_SIZE && j <= 3
    ensures var ws := Windows(size, length);
            && |ws| == 6 && ws[1 + j] == Sample(size, j) && ws[1 + j].size == SAMPLE_SIZE
            && ws[..2 + j] == ws[..1 + j] + [ws[1 + j]]
            && (ws[1 + j].start >= HEADER_OR_FOOTER_SIZE + SeekJump(size) * 3 <==> j == 3)
            && (j < 3 ==> ws[2 + j].start == ws[1 + j].start + SeekJump(size))
  {
    assert SeekJump(size) > 0;
  }

  lemma WindowEnds(content: seq<byte>, size: nat)
    requires size > MINIMUM_FILE_SIZE && |content| >= HEADER_OR_FOOTER_SIZE
    ensures var ws := Windows(size, |content|);
            && |ws| == 6 && ws[..1] == [Window(0, HEADER_OR_FOOTER_SIZE)] && Gather(content, ws[..1]) == content[..HEADER_OR_FOOTER_SIZE]
            && ws[1].start == HEADER_OR_FOOTER_SIZE
            && ws == ws[..5] + [ws[5]] && ws[5] == Window(|content| - HEADER_OR_FOOTER_SIZE, HEADER_OR_FOOTER_SIZE)
            && (AllInside(ws[..5], |content|) ==> LongEnough(content, size))
  {
    var ws := Windows(size, |content|);
    assert ws[..1][1..] == [];
    assert ws[..5][4] == Sample(size, 3);
  }

  /** The part of `generate_cas_id` for large files; the loop needs no counter to stop after four samples. */
  method ReadSamples(file: File, size: nat) returns (r: Result<seq<byte>, IoError>)
    requires file.pos == 0 && size > MINIMUM_FILE_SIZE
    modifies file
    ensures r.Ok? <==> LongEnough(file.content, size)
    ensures r.Ok? ==> LittleEndian(size, 8) + r.value == HashInput(file.content, size)
  {
    var buf := new byte[SAMPLE_SIZE];
    var read := file.ReadExact(buf, HEADER_OR_FOOTER_SIZE);
    if read.Err? {
      return Err(UnexpectedEof);
    }
    var currentPos := read.value;
    var input := buf[..HEADER_OR_FOOTER_SIZE];

    var seekJump := (size - HEADER_OR_FOOTER_SIZE * 2) / SAMPLE_COUNT;
    assert seekJump == SeekJump(size);
    ghost var ws, j := Windows(size, |file.content|), 0;
    WindowEnds(file.content, size);
    hide Windows, Sample, SeekJump, LongEnough, Gather, HashInput, LittleEndian;
    while true
      invariant j <= 3 && file.pos == currentPos == ws[1 + j].start
      invariant AllInside(ws[..1 + j], |file.content|) && input == Gather(file.content, ws[..1 + j])
      decreases 3 - j
    {
      read := file.ReadExact(buf, SAMPLE_SIZE);
      SamplePlace(size, |file.content|, j);
      if read.Err? {
        SampleMissing(file.content, size, j);
        return Err(UnexpectedEof);
      }
      GatherAppend(file.content, ws[..1 + j], ws[1 + j]);
      assert buf[..] == buf[..SAMPLE_SIZE];
      input := input + buf[..];
      if currentPos >= HEADER_OR_FOOTER_SIZE + seekJump * (SAMPLE_COUNT - 1) {
        break;
      }
      currentPos := file.Seek(currentPos + seekJump);
      j := j + 1;
    }
    var _ := file.Seek(|file.content| - HEADER_OR_FOOTER_SIZE);
    read := file.ReadExact(buf, HEADER_OR_FOOTER_SIZE);
    input := input + buf[..HEADER_OR_FOOTER_SIZE];
    GatherAppend(file.content, ws[..5], ws[5]);
    LargeInput(file.content, size);
    r := Ok(input);
  }

  lemma LargeInput(content: seq<byte>, size: nat)
    requires size > MINIMUM_FILE_SIZE && LongEnough(content, size)
    ensures AllInside(Windows(size, |content|), |content|)
    ensures HashInput(content, size) == LittleEndian(size, 8) + Gather(content, Windows(size, |content|))
  {
    WindowsInside(size, |content|);
  }

  /** `generate_cas_id`. */
  method GenerateCasId(digest: seq<byte> -> Hex, file: File, size: nat) returns (r: Result<string, IoError>)
    requires file.pos == 0
    modifies file
    ensures r == CasIdOf(digest, file.content, size)
    ensures r.Ok? <==> LongEnough(file.content, size)
    ensures r.Ok? ==> |r.value| == 16 && r.value <= digest(LittleEndian(size, 8) + ReadOf(file.content, size))
  {
    if LongEnough(file.content, size) {
      InputIsReadOf(file.content, size);
    }
    hide ReadOf, HashInput, LittleEndian, LongEnough;
    var input := LittleEndian(size, 8);
    if size <= MINIMUM_FILE_SIZE {
      input := input + file.content;
    } else {
      var sampled := ReadSamples(file, size);
      if sampled.Err? {
        return Err(UnexpectedEof);
      }
      input := input + sampled.value;
    }
    r := Ok(digest(input)[..16]);
  }
}
