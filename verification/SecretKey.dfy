/** The text form of a secret key: upper-case hexadecimal digits in dashed groups. */
module SecretKey {
  import opened Outcomes
  import opened Bytes
  import opened Hex

  const SECRET_KEY_LEN: nat := 18

  datatype SecretKey = Standard(bytes: seq<byte>) | Variable(bytes: seq<byte>) | Null

  /** A standard key is an array of the fixed length. */
  predicate Valid(k: SecretKey) {
    k.Standard? ==> |k.bytes| == SECRET_KEY_LEN
  }

  function Expose(k: SecretKey): seq<byte> {
    if k.Null? then [] else k.bytes
  }

  /** The conversion from bytes. */
  function FromBytes(bytes: seq<byte>): (k: SecretKey)
    ensures Valid(k) && Expose(k) == bytes
    ensures k.Standard? <==> |bytes| == SECRET_KEY_LEN
    ensures k.Null? <==> bytes == []
  {
    if |bytes| == SECRET_KEY_LEN then Standard(bytes) else if bytes == [] then Null else Variable(bytes)
  }

  function Kept(c: char): string {
    if IsHexDigit(c) then [c] else []
  }

  function Retain(s: string): (r: string)
    ensures AllHex(r)
  {
    if s == [] then [] else Kept(s[0]) + Retain(s[1..])
  }

  /* ----- text ----- */

  /** Groups of `d` characters with dashes between them. */
  function Grouped(s: string, d: nat): string
    requires d > 0
    decreases |s|
  {
    if |s| <= d then s else s[..d] + "-" + Grouped(s[d..], d)
  }

  function Digits(k: SecretKey): string {
    Upper(HexEncode(Expose(k)))
  }

  /** `None` is a panic: the distance between dashes is zero for fewer than six digits. */
  function Display(k: SecretKey): Option<string> {
    var s := Digits(k);
    if s == [] then Some([]) else if |s| / 6 == 0 then None else Some(Grouped(s, |s| / 6))
  }

  /** The conversion from text; what cannot be decoded becomes the empty key. */
  function Parse(s: string): (k: SecretKey)
    ensures Valid(k)
  {
    match HexDecode(Retain(s))
    case Some(bytes) => FromBytes(bytes)
    case None => Null
  }

  lemma AppendTail(a: string, b: string)
    requires a != []
    ensures (a + b)[0] == a[0] && (a + b)[1..] == a[1..] + b
  {
  }

  lemma {:induction false} RetainAppend(a: string, b: string)
    ensures Retain(a + b) == Retain(a) + Retain(b)
    decreases |a|
  {
    if a == [] {
      assert a + b == b;
    } else {
      AppendTail(a, b);
      RetainAppend(a[1..], b);
      assert Retain(a) == Kept(a[0]) + Retain(a[1..]) && Retain(a + b) == Kept(a[0]) + Retain(a[1..] + b);
      hide Retain, Kept;
      Append2(Kept(a[0]), Retain(a[1..]), Retain(b));
    }
  }

  lemma {:induction false} RetainAll(s: string)
    requires AllHex(s)
    ensures Retain(s) == s
    decreases |s|
  {
    if s != [] {
      RetainAll(s[1..]);
    }
  }

  lemma DashIsDropped()
    ensures Retain("-") == []
  {
    assert "-"[1..] == [];
  }

  lemma RetainGroup(head: string, rest: string, tail: string)
    requires AllHex(head) && Retain(rest) == tail
    ensures Retain(head + "-" + rest) == head + tail
  {
    RetainAppend(head + "-", rest);
    RetainAppend(head, "-");
    DashIsDropped();
    RetainAll(head);
    hide Retain, AllHex;
    assert head + [] == head;
  }

  lemma Cut(s: string, d: nat)
    requires d <= |s|
    ensures s[..d] + s[d..] == s && (AllHex(s) ==> AllHex(s[..d]) && AllHex(s[d..]))
  {
  }

  lemma {:induction false} DashesAreDropped(s: string, d: nat)
    requires AllHex(s) && d > 0
    ensures Retain(Grouped(s, d)) == s
    decreases |s|
  {
    if |s| <= d {
      RetainAll(s);
    } else {
      Cut(s, d);
      DashesAreDropped(s[d..], d);
      assert Grouped(s, d) == s[..d] + "-" + Grouped(s[d..], d);
      hide Grouped, Retain, AllHex;
      RetainGroup(s[..d], Grouped(s[d..], d), s[d..]);
    }
  }

  /** Printing works for every key but those of one or two bytes, and parsing then gives back its bytes. */
  lemma DisplayThenParseKeepsBytes(k: SecretKey)
    requires Valid(k)
    ensures Display(k).None? <==> 1 <= |Expose(k)| <= 2
    ensures Display(k).Some? ==> Parse(Display(k).value) == FromBytes(Expose(k))
  {
    HexRoundTrip(Expose(k), true);
    var s := Digits(k);
    if |s| >= 6 {
      DashesAreDropped(s, |s| / 6);
    } else if s == [] {
      assert Retain([]) == [];
    }
  }

  /** The keys that the conversions from bytes produce, and that can be printed. */
  predicate Canonical(k: SecretKey) {
    k.Variable? ==> |k.bytes| >= 3 && |k.bytes| != SECRET_KEY_LEN
  }

  lemma RoundTripsExactlyIfCanonical(k: SecretKey)
    requires Valid(k)
    ensures (Display(k).Some? && Parse(Display(k).value) == k) <==> Canonical(k)
  {
    DisplayThenParseKeepsBytes(k);
  }

  /** Whatever the separators, a text is a key exactly if it has an even, positive number of digits. */
  lemma ParsesToNullExactly(s: string)
    ensures Parse(s) == Null <==> Retain(s) == [] || |Retain(s)| % 2 == 1
  {
    DecodeParity(Retain(s));
  }

  /* ----- the printed form ----- */

  /** In groups of `d`, every `d + 1`-th character is a dash, and the others are the digits in order. */
  lemma {:induction false} GroupedAt(s: string, d: nat, q: nat, r: nat)
    requires s != [] && d > 0 && r <= d && (d + 1) * q + r < |Grouped(s, d)|
    ensures if r == d then d * q + d < |s| && Grouped(s, d)[(d + 1) * q + r] == '-'
            else d * q + r < |s| && Grouped(s, d)[(d + 1) * q + r] == s[d * q + r]
    decreases q
  {
    var g := Grouped(s, d);
    if |s| <= d {
      FirstGroup(d, q, r);
    } else {
      var rest := Grouped(s[d..], d);
      assert g == s[..d] + "-" + rest && |s[..d] + "-"| == d + 1;
      if q > 0 {
        Shift(d, q, r);
        GroupedAt(s[d..], d, q - 1, r);
      }
    }
  }

  lemma FirstGroup(d: nat, q: nat, r: nat)
    ensures q > 0 ==> (d + 1) * q + r > d
  {
    if q > 0 {
      assert (d + 1) * q == (d + 1) * (q - 1) + (d + 1);
    }
  }

  lemma Shift(d: nat, q: nat, r: nat)
    requires q > 0
    ensures (d + 1) * q + r == (d + 1) + ((d + 1) * (q - 1) + r) && d * q + r == d + (d * (q - 1) + r)
  {
  }

  /** The upper-case digit of a byte at a place in the text without its dashes. */
  function UpperDigit(bytes: seq<byte>, i: nat): char
    requires i < 2 * |bytes|
  {
    var v := if i % 2 == 0 then bytes[i / 2] / 16 else bytes[i / 2] % 16;
    if v < 10 then '0' + v as char else 'A' + (v - 10) as char
  }

  lemma DigitsAreUpper(k: SecretKey, i: nat)
    requires i < 2 * |Expose(k)|
    ensures |Digits(k)| == 2 * |Expose(k)| && Digits(k)[i] == UpperDigit(Expose(k), i)
  {
    HexDigits(Expose(k), i / 2);
    assert i == 2 * (i / 2) + i % 2;
    UpperOf(Expose(k)[i / 2] / 16);
    UpperOf(Expose(k)[i / 2] % 16);
    hide HexEncode, DigitChar;
  }

  lemma UpperOf(v: nat)
    requires v < 16
    ensures UpperChar(DigitChar(v)) == if v < 10 then '0' + v as char else 'A' + (v - 10) as char
  {
  }

  /**
   The text of a key of three bytes or more: its digits in upper case, with a dash after every sixth of
   them, rounded down, except at the end. Character `(d + 1) * q + r` is the `r`-th of group `q`.
   */
  lemma DisplayedForm(k: SecretKey, q: nat, r: nat)
    requires Display(k).Some? && Expose(k) != []
    ensures var d, text := 2 * |Expose(k)| / 6, Display(k).value;
            && d > 0
            && (r <= d && (d + 1) * q + r < |text| ==>
                  if r == d then text[(d + 1) * q + r] == '-' && d * q + d < 2 * |Expose(k)|
                  else d * q + r < 2 * |Expose(k)| && text[(d + 1) * q + r] == UpperDigit(Expose(k), d * q + r))
  {
    var s := Digits(k);
    var d := |s| / 6;
    if r <= d && (d + 1) * q + r < |Grouped(s, d)| {
      GroupedAt(s, d, q, r);
      if r < d {
        DigitsAreUpper(k, d * q + r);
      }
    }
    hide Grouped, UpperDigit;
  }

  /* ----- the program ----- */

  ghost predicate Aligned(i: nat, d: nat)
    requires d > 0
  {
    i % d == 0
  }

  lemma NextDash(start: nat, d: nat, i: nat)
    requires d > 0 && Aligned(start, d) && start <= i < start + d
    ensures Aligned(i + 1, d) <==> i + 1 == start + d
    ensures Aligned(i + 1, d) <==> (i + 1) % d == 0
  {
    var q := start / d;
    assert start == d * q;
    if i + 1 == start + d {
      assert i + 1 == d * (q + 1) + 0;
      Remainder(d, q + 1, 0);
    } else {
      Remainder(d, q, i + 1 - start);
    }
  }

  /** `fmt`: one character at a time, a dash after each group but the last. */
  method Format(k: SecretKey) returns (r: Option<string>)
    ensures r == Display(k)
  {
    var s := Upper(HexEncode(Expose(k)));
    if s == [] {
      return Some([]);
    }
    var d := |s| / 6;
    if d == 0 {
      return None;
    }
    var text := FormatDigits(s, d);
    r := Some(text);
  }

  /** What is still to be printed at `i`, in the group that began at `start`. */
  ghost function Rest(s: string, d: nat, start: nat, i: nat): string
    requires d > 0 && start <= i <= |s| && i <= start + d
  {
    if |s| - start <= d then s[i..] else s[i..start + d] + "-" + Grouped(s[start + d..], d)
  }

  lemma RestInLastGroup(s: string, d: nat, start: nat, i: nat)
    requires d > 0 && start <= i < |s| <= start + d
    ensures Rest(s, d, start, i) == [s[i]] + Rest(s, d, start, i + 1)
  {
    hide Grouped;
    assert s[i..] == [s[i]] + s[i + 1..];
  }

  lemma SliceHead(s: string, i: nat, end: nat)
    requires i < end <= |s|
    ensures s[i..end] == [s[i]] + s[i + 1..end]
  {
  }

  lemma RestInGroup(s: string, d: nat, start: nat, i: nat)
    requires d > 0 && start <= i < start + d < |s|
    ensures Rest(s, d, start, i) == [s[i]] + Rest(s, d, start, i + 1)
  {
    hide Grouped;
    var end := start + d;
    var head, group, tail := [s[i]], s[i + 1..end], Grouped(s[end..], d);
    assert Rest(s, d, start, i) == s[i..end] + "-" + tail && Rest(s, d, start, i + 1) == group + "-" + tail;
    hide Rest;
    SliceHead(s, i, end);
    Associate(head, group, "-", tail);
  }

  lemma EmptySlice(s: string, end: nat, dash: string, tail: string)
    requires end <= |s|
    ensures s[end..end] + dash + tail == dash + tail
  {
    assert s[end..end] == [];
  }

  lemma RestAtGroupEnd(s: string, d: nat, start: nat)
    requires d > 0 && start + d < |s|
    ensures Rest(s, d, start, start + d) == "-" + Rest(s, d, start + d, start + d)
  {
    var end := start + d;
    GroupAhead(s, d, end);
    hide Grouped;
    var tail := Grouped(s[end..], d);
    assert Rest(s, d, start, end) == s[end..end] + "-" + tail;
    hide Rest;
    EmptySlice(s, end, "-", tail);
  }

  lemma RestStep(s: string, d: nat, start: nat, i: nat)
    requires d > 0 && start <= i < |s| && i < start + d
    ensures Rest(s, d, start, i)
            == [s[i]] + if i + 1 == start + d && i + 1 != |s| then "-" + Rest(s, d, i + 1, i + 1) else Rest(s, d, start, i + 1)
  {
    hide Rest;
    if |s| <= start + d {
      RestInLastGroup(s, d, start, i);
    } else {
      RestInGroup(s, d, start, i);
      if i + 1 == start + d {
        RestAtGroupEnd(s, d, start);
      }
    }
  }

  /** Printing one character, and the dash after it if its group is full. */
  lemma PrintStep(text: string, s: string, d: nat, start: nat, i: nat)
    requires d > 0 && start <= i < |s| && i < start + d
    ensures text + Rest(s, d, start, i)
            == if i + 1 == start + d && i + 1 != |s| then text + [s[i]] + "-" + Rest(s, d, i + 1, i + 1)
               else text + [s[i]] + Rest(s, d, start, i + 1)
  {
    RestStep(s, d, start, i);
    hide Rest;
    if i + 1 == start + d && i + 1 != |s| {
      Append3(text, [s[i]], "-", Rest(s, d, i + 1, i + 1));
    } else {
      Append2(text, [s[i]], Rest(s, d, start, i + 1));
    }
  }

  lemma Append2(a: string, b: string, c: string)
    ensures a + (b + c) == a + b + c
  {
  }

  lemma Append3(a: string, b: string, c: string, d: string)
    ensures a + (b + (c + d)) == a + b + c + d
  {
  }

  lemma Associate(a: string, b: string, c: string, d: string)
    ensures a + b + c + d == a + (b + c + d)
  {
  }

  lemma GroupAhead(s: string, d: nat, start: nat)
    requires d > 0 && start <= |s|
    ensures Rest(s, d, start, start) == Grouped(s[start..], d)
  {
    var tail := s[start..];
    if |tail| > d {
      assert tail[..d] == s[start..start + d] && tail[d..] == s[start + d..];
    }
  }

  method FormatDigits(s: string, d: nat) returns (text: string)
    requires s != [] && d > 0
    ensures text == Grouped(s, d)
  {
    assert Aligned(0, d);
    GroupAhead(s, d, 0);
    assert s[0..] == s;
    hide Aligned, Grouped, Rest;
    text := "";
    ghost var start := 0;
    for i := 0 to |s|
      invariant Aligned(start, d) && start <= i <= start + d && (i < |s| ==> i < start + d) && start < |s|
      invariant Grouped(s, d) == text + Rest(s, d, start, i)
    {
      PrintStep(text, s, d, start, i);
      NextDash(start, d, i);
      text := text + [s[i]];
      if (i + 1) % d == 0 && i + 1 != |s| {
        text := text + "-";
        start := i + 1;
      }
    }
    RestEnd(s, d, start);
  }

  lemma RestEnd(s: string, d: nat, start: nat)
    requires d > 0 && start < |s| <= start + d
    ensures Rest(s, d, start, |s|) == []
  {
  }

  /** `try_from` a string: keep the digits, then decode them. */
  method FromText(text: string) returns (k: SecretKey)
    ensures k == Parse(text)
  {
    var s := "";
    for i := 0 to |text|
      invariant Retain(text) == s + Retain(text[i..]) && AllHex(s)
    {
      assert text[i..][0] == text[i] && text[i..][1..] == text[i + 1..];
      if IsHexDigit(text[i]) {
        s := s + [text[i]];
      }
    }
    assert Retain(text[|text|..]) == [] && s + [] == s;
    var bytes := HexDecode(s);
    k := FromBytes(if bytes.Some? then bytes.value else []);
  }
}
