/** JSON arrays of strings as bytes: the text the recorder writes and a reader for it (RFC 8259). */
module JsonText {
  import opened Wrappers

  type byte = x: int | 0 <= x < 256

  const QUOTE: byte := 34
  const BACKSLASH: byte := 92
  const COMMA: byte := 44
  const OPEN: byte := 91
  const CLOSE: byte := 93

  // ---------------------------------------------------------------- the writer's text

  function HexDigit(d: int): byte
    requires 0 <= d < 16
  {
    if d < 10 then 48 + d else 97 + d - 10
  }

  /** One byte inside a string. */
  function EscapeByte(c: byte): (r: seq<byte>)
    ensures 1 <= |r| <= 6
  {
    if c == QUOTE || c == BACKSLASH then [BACKSLASH, c]
    else if c < 32 then [BACKSLASH, 117, 48, 48, HexDigit(c / 16), HexDigit(c % 16)]
    else [c]
  }

  function Escaped(text: seq<byte>): seq<byte> {
    if text == [] then [] else EscapeByte(text[0]) + Escaped(text[1..])
  }

  function Quoted(text: seq<byte>): seq<byte> { [QUOTE] + Escaped(text) + [QUOTE] }

  /** The strings after the first, each behind a comma. */
  function Tail(args: seq<seq<byte>>): seq<byte> {
    if args == [] then [] else [COMMA] + Quoted(args[0]) + Tail(args[1..])
  }

  function ArrayText(args: seq<seq<byte>>): seq<byte> {
    [OPEN] + (if args == [] then [] else Quoted(args[0]) + Tail(args[1..])) + [CLOSE]
  }

  // ---------------------------------------------------------------- a reader

  function HexValue(c: byte): Option<int> {
    if 48 <= c <= 57 then Some(c - 48)
    else if 97 <= c <= 102 then Some(c - 97 + 10)
    else if 65 <= c <= 70 then Some(c - 65 + 10)
    else None
  }

  /** The UTF-8 form of a code point of the basic plane, surrogates left out. */
  function Encode(code: int): Option<seq<byte>>
    requires 0 <= code < 65536
  {
    if code < 128 then Some([code])
    else if code < 2048 then Some([192 + code / 64, 128 + code % 64])
    else if 55296 <= code < 57344 then None
    else Some([224 + code / 4096, 128 + code / 64 % 64, 128 + code % 64])
  }

  /** The escape after a backslash (section 7): its bytes and what follows it. */
  function ReadEscape(s: seq<byte>): (r: Option<(seq<byte>, seq<byte>)>)
    ensures r.Some? ==> |r.value.1| < |s|
  {
    if s == [] then None
    else match s[0]
      case 34 => Some(([34], s[1..]))
      case 92 => Some(([92], s[1..]))
      case 47 => Some(([47], s[1..]))
      case 98 => Some(([8], s[1..]))
      case 102 => Some(([12], s[1..]))
      case 110 => Some(([10], s[1..]))
      case 114 => Some(([13], s[1..]))
      case 116 => Some(([9], s[1..]))
      case 117 =>
        if |s| < 5 then None else
        var a, b, c, d := HexValue(s[1]), HexValue(s[2]), HexValue(s[3]), HexValue(s[4]);
        if a.None? || b.None? || c.None? || d.None? then None else
        var code := a.value * 4096 + b.value * 256 + c.value * 16 + d.value;
        if !(0 <= code < 65536) || Encode(code).None? then None else Some((Encode(code).value, s[5..]))
      case _ => None
  }

  /** The characters of a string up to its closing quote, and what follows. */
  function ReadChars(s: seq<byte>): (r: Option<(seq<byte>, seq<byte>)>)
    ensures r.Some? ==> |r.value.1| < |s|
    decreases |s|
  {
    if s == [] then None
    else if s[0] == QUOTE then Some(([], s[1..]))
    else if s[0] == BACKSLASH then
      var e := ReadEscape(s[1..]);
      if e.None? then None else
      var rest := ReadChars(e.value.1);
      if rest.None? then None else Some((e.value.0 + rest.value.0, rest.value.1))
    else if s[0] < 32 then None
    else
      var rest := ReadChars(s[1..]);
      if rest.None? then None else Some(([s[0]] + rest.value.0, rest.value.1))
  }

  function SkipSpace(s: seq<byte>): (r: seq<byte>)
    ensures |r| <= |s|
  {
    if s != [] && (s[0] == 32 || s[0] == 9 || s[0] == 10 || s[0] == 13) then SkipSpace(s[1..]) else s
  }

  function ReadString(s: seq<byte>): (r: Option<(seq<byte>, seq<byte>)>)
    ensures r.Some? ==> |r.value.1| < |s|
  {
    var t := SkipSpace(s);
    if t == [] || t[0] != QUOTE then None else ReadChars(t[1..])
  }

  /** After an element: the end of the array or a comma and another string (section 5). */
  function ReadMore(s: seq<byte>): Option<seq<seq<byte>>>
    decreases |s|
  {
    var t := SkipSpace(s);
    if t == [] then None
    else if t[0] == CLOSE then (if SkipSpace(t[1..]) == [] then Some([]) else None)
    else if t[0] != COMMA then None
    else
      var item := ReadString(t[1..]);
      if item.None? then None else
      var rest := ReadMore(item.value.1);
      if rest.None? then None else Some([item.value.0] + rest.value)
  }

  function ReadArray(s: seq<byte>): Option<seq<seq<byte>>> {
    var t := SkipSpace(s);
    if t == [] || t[0] != OPEN then None else
    var u := SkipSpace(t[1..]);
    if u != [] && u[0] == CLOSE then (if SkipSpace(u[1..]) == [] then Some([]) else None) else
    var item := ReadString(u);
    if item.None? then None else
    var rest := ReadMore(item.value.1);
    if rest.None? then None else Some([item.value.0] + rest.value)
  }

  // ---------------------------------------------------------------- round trips

  lemma HexBack(d: int)
    requires 0 <= d < 16
    ensures HexValue(HexDigit(d)) == Some(d)
  {}

  lemma ReadCharsStep(c: byte, rest: seq<byte>)
    ensures ReadChars(EscapeByte(c) + rest)
         == if ReadChars(rest).None? then None else Some(([c] + ReadChars(rest).value.0, ReadChars(rest).value.1))
  {
    var s := EscapeByte(c) + rest;
    if c == QUOTE || c == BACKSLASH {
      assert s[1..] == [c] + rest;
      assert s[1..][1..] == rest;
    } else if c < 32 {
      HexBack(c / 16);
      HexBack(c % 16);
      var t := s[1..];
      assert t == [117, 48, 48, HexDigit(c / 16), HexDigit(c % 16)] + rest;
      assert t[5..] == rest;
      assert ReadEscape(t) == Some(([c], rest));
    } else {
      assert s[1..] == rest;
    }
  }

  lemma {:induction false} ReadCharsBack(text: seq<byte>, rest: seq<byte>)
    ensures ReadChars(Escaped(text) + [QUOTE] + rest) == Some((text, rest))
  {
    if text == [] {
      assert Escaped(text) + [QUOTE] + rest == [QUOTE] + rest;
      assert ([QUOTE] + rest)[1..] == rest;
    } else {
      hide ReadChars, EscapeByte;
      var more := Escaped(text[1..]) + [QUOTE] + rest;
      ReadCharsBack(text[1..], rest);
      ReadCharsStep(text[0], more);
      assert Escaped(text) + [QUOTE] + rest == EscapeByte(text[0]) + more;
      assert [text[0]] + text[1..] == text;
    }
  }

  /** A reader takes back exactly the bytes written and stops at the closing quote, whatever follows. */
  lemma QuotedReadsBack(text: seq<byte>, rest: seq<byte>)
    ensures ReadString(Quoted(text) + rest) == Some((text, rest))
  {
    hide ReadChars, Escaped;
    ReadCharsBack(text, rest);
    var s := Quoted(text) + rest;
    assert s == [QUOTE] + (Escaped(text) + [QUOTE] + rest);
    assert s[1..] == Escaped(text) + [QUOTE] + rest;
  }

  lemma {:induction false} TailReadsBack(args: seq<seq<byte>>)
    ensures ReadMore(Tail(args) + [CLOSE]) == Some(args)
  {
    if args == [] {
      assert Tail(args) + [CLOSE] == [CLOSE] && [CLOSE][1..] == [];
    } else {
      var rest := Tail(args[1..]) + [CLOSE];
      TailReadsBack(args[1..]);
      ReadMoreStep(args[0], rest);
      hide *;
      TailStep(args);
    }
  }

  lemma ReadMoreStep(text: seq<byte>, rest: seq<byte>)
    ensures ReadMore([COMMA] + (Quoted(text) + rest))
         == if ReadMore(rest).None? then None else Some([text] + ReadMore(rest).value)
  {
    var s := [COMMA] + (Quoted(text) + rest);
    QuotedReadsBack(text, rest);
    hide Quoted, ReadString;
    assert s[1..] == Quoted(text) + rest;
  }

  lemma TailStep(args: seq<seq<byte>>)
    requires args != []
    ensures Tail(args) + [CLOSE] == [COMMA] + (Quoted(args[0]) + (Tail(args[1..]) + [CLOSE]))
    ensures [args[0]] + args[1..] == args
  {
    hide Quoted;
  }

  /** The emitted array, read as JSON, is the argument list. */
  lemma ArrayReadsBack(args: seq<seq<byte>>)
    ensures ReadArray(ArrayText(args)) == Some(args)
  {
    var s := ArrayText(args);
    hide ReadMore, ReadString, Escaped;
    if args == [] {
      assert s == [OPEN, CLOSE] && s[1..] == [CLOSE] && [CLOSE][1..] == [];
    } else {
      var rest := Tail(args[1..]) + [CLOSE];
      assert s == [OPEN] + (Quoted(args[0]) + rest);
      assert s[1..] == Quoted(args[0]) + rest;
      QuotedReadsBack(args[0], rest);
      TailReadsBack(args[1..]);
      assert [args[0]] + args[1..] == args;
    }
  }

  /** Different argument lists never give the same text. */
  lemma ArrayTextInjective(a: seq<seq<byte>>, b: seq<seq<byte>>)
    ensures ArrayText(a) == ArrayText(b) <==> a == b
  {
    ArrayReadsBack(a);
    ArrayReadsBack(b);
  }

  // ---------------------------------------------------------------- well-formed UTF-8

  predicate Trail(c: byte) { 128 <= c < 192 }

  /** The length of the well-formed sequence `s` starts with (section 4 of RFC 3629), or 0. */
  function Sequence(s: seq<byte>): (n: nat)
    ensures n <= |s| && n <= 4
    ensures s != [] && n >= 2 ==> s[0] >= 192 && forall i :: 1 <= i < n ==> Trail(s[i])
    ensures n == 1 ==> s[0] < 128
  {
    if s == [] then 0
    else if s[0] < 128 then 1
    else if 194 <= s[0] < 224 && |s| >= 2 && Trail(s[1]) then 2
    else if 224 <= s[0] < 240 && |s| >= 3 && Trail(s[1]) && Trail(s[2])
         && (s[0] == 224 ==> s[1] >= 160) && (s[0] == 237 ==> s[1] < 160) then 3
    else if 240 <= s[0] < 245 && |s| >= 4 && Trail(s[1]) && Trail(s[2]) && Trail(s[3])
         && (s[0] == 240 ==> s[1] >= 144) && (s[0] == 244 ==> s[1] < 144) then 4
    else 0
  }

  predicate WellFormed(s: seq<byte>)
    decreases |s|
  {
    s == [] || (Sequence(s) > 0 && WellFormed(s[Sequence(s)..]))
  }

  lemma {:induction false} WellFormedAppend(a: seq<byte>, b: seq<byte>)
    requires WellFormed(a) && WellFormed(b)
    ensures WellFormed(a + b)
    decreases |a|
  {
    if a == [] {
      assert a + b == b;
    } else {
      var n := Sequence(a);
      SequencePrefix(a, b);
      assert (a + b)[n..] == a[n..] + b;
      WellFormedAppend(a[n..], b);
    }
  }

  lemma SequencePrefix(a: seq<byte>, b: seq<byte>)
    requires Sequence(a) > 0
    ensures Sequence(a + b) == Sequence(a)
  {}

  lemma {:induction false} AsciiWellFormed(s: seq<byte>)
    requires forall i :: 0 <= i < |s| ==> s[i] < 128
    ensures WellFormed(s)
  {
    if s != [] { AsciiWellFormed(s[1..]); }
  }

  /** Bytes from 128 up pass the escaper unchanged. */
  lemma {:induction false} EscapedAppend(a: seq<byte>, b: seq<byte>)
    ensures Escaped(a + b) == Escaped(a) + Escaped(b)
  {
    if a == [] {
      assert a + b == b;
    } else {
      assert (a + b)[1..] == a[1..] + b;
      EscapedAppend(a[1..], b);
    }
  }

  lemma {:induction false} EscapedHigh(a: seq<byte>)
    requires forall i :: 0 <= i < |a| ==> a[i] >= 128
    ensures Escaped(a) == a
  {
    if a != [] { EscapedHigh(a[1..]); }
  }

  lemma EscapedAscii(c: byte)
    requires c < 128
    ensures WellFormed(Escaped([c]))
  {
    assert [c][1..] == [] && Escaped([c]) == EscapeByte(c) + [];
    AsciiWellFormed(EscapeByte(c));
    assert EscapeByte(c) + [] == EscapeByte(c);
  }

  lemma {:induction false} EscapedWellFormed(text: seq<byte>)
    requires WellFormed(text)
    ensures WellFormed(Escaped(text))
    decreases |text|
  {
    if text != [] {
      var n := Sequence(text);
      var head, rest := text[..n], text[n..];
      assert text == head + rest;
      EscapedAppend(head, rest);
      EscapedWellFormed(rest);
      if n == 1 {
        assert head == [text[0]];
        EscapedAscii(text[0]);
      } else {
        EscapedHigh(head);
        SequenceAlone(text);
        assert head[n..] == [];
      }
      WellFormedAppend(Escaped(head), Escaped(rest));
    }
  }

  lemma SequenceAlone(s: seq<byte>)
    ensures Sequence(s) > 0 ==> Sequence(s[..Sequence(s)]) == Sequence(s)
  {}

  lemma QuotedWellFormed(text: seq<byte>)
    requires WellFormed(text)
    ensures WellFormed(Quoted(text))
  {
    EscapedWellFormed(text);
    AsciiWellFormed([QUOTE]);
    hide WellFormed, Escaped;
    WellFormedAppend([QUOTE], Escaped(text));
    WellFormedAppend([QUOTE] + Escaped(text), [QUOTE]);
  }

  lemma {:induction false} TailWellFormed(args: seq<seq<byte>>)
    requires forall i :: 0 <= i < |args| ==> WellFormed(args[i])
    ensures WellFormed(Tail(args))
  {
    hide WellFormed, Quoted;
    AsciiWellFormed([]);
    if args != [] {
      QuotedWellFormed(args[0]);
      TailWellFormed(args[1..]);
      AsciiWellFormed([COMMA]);
      WellFormedAppend([COMMA], Quoted(args[0]));
      WellFormedAppend([COMMA] + Quoted(args[0]), Tail(args[1..]));
    }
  }

  /** The text is well-formed UTF-8 whenever the arguments are. */
  lemma ArrayWellFormed(args: seq<seq<byte>>)
    requires forall i :: 0 <= i < |args| ==> WellFormed(args[i])
    ensures WellFormed(ArrayText(args))
  {
    hide WellFormed, Quoted, Tail;
    AsciiWellFormed([OPEN]);
    AsciiWellFormed([CLOSE]);
    if args == [] {
      AsciiWellFormed([]);
      WellFormedAppend([OPEN], []);
      WellFormedAppend([OPEN] + [], [CLOSE]);
    } else {
      QuotedWellFormed(args[0]);
      TailWellFormed(args[1..]);
      WellFormedAppend(Quoted(args[0]), Tail(args[1..]));
      WellFormedAppend([OPEN], Quoted(args[0]) + Tail(args[1..]));
      WellFormedAppend([OPEN] + (Quoted(args[0]) + Tail(args[1..])), [CLOSE]);
    }
  }

  // ---------------------------------------------------------------- lengths

  lemma {:induction false} EscapedLength(text: seq<byte>)
    ensures |text| <= |Escaped(text)| <= 6 * |text|
  {
    if text != [] { EscapedLength(text[1..]); }
  }
}
