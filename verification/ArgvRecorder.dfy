/** The freestanding argv recorder: fixed buffers, written in place one byte at a time. */
module ArgvRecorder {
  import opened Wrappers
  import opened JsonText

  const CONVERTED_SIZE: nat := 32768 * 3
  const JSON_SIZE: nat := (32768 * 3 + 2) * 6 + 16
  const COMMAND_SIZE: nat := 32768 + 8
  const COMMAND_LINE_UNITS: nat := 32767
  const PATH_SIZE: nat := 32768

  /** `-print-resource-dir`. */
  const FLAG: seq<byte> := [45, 112, 114, 105, 110, 116, 45, 114, 101, 115, 111, 117, 114, 99, 101, 45, 100, 105, 114]

  /** The quoted path followed by a space and the flag. */
  function CommandLine(path: seq<byte>): seq<byte> { [QUOTE] + path + [QUOTE] + ([32] + FLAG) }

  /**
   The compiler's path may take 32,767 bytes. The line and its NUL fit the command buffer up to
   32,753 of them; at 32,754 the line fills it and no NUL follows; from 32,755 it does not fit.
   */
  lemma CommandLineFits(path: seq<byte>)
    ensures |CommandLine(path)| < COMMAND_SIZE <==> |path| <= 32753
    ensures |CommandLine(path)| == COMMAND_SIZE <==> |path| == 32754
    ensures |CommandLine(path)| > COMMAND_SIZE <==> |path| >= 32755
  {}

  /** The bytes of an ASCII text. */
  function Ascii(text: string): seq<int> { seq(|text|, i requires 0 <= i < |text| => text[i] as int) }

  lemma FlagText()
    ensures FLAG == Ascii("-print-resource-dir")
  {
    var text := "-print-resource-dir";
    assert |text| == |FLAG| == 19;
    assert text[0] == '-' && text[1] == 'p' && text[2] == 'r' && text[3] == 'i' && text[4] == 'n' && text[5] == 't';
    assert text[6] == '-' && text[7] == 'r' && text[8] == 'e' && text[9] == 's' && text[10] == 'o' && text[11] == 'u';
    assert text[12] == 'r' && text[13] == 'c' && text[14] == 'e' && text[15] == '-' && text[16] == 'd';
    assert text[17] == 'i' && text[18] == 'r';
  }

  /**
   How a started program splits its command line: quotes toggle, and a blank outside quotes ends an
   argument. Backslashes, which can matter before a quote after the first argument, are left out:
   there are no quotes there.
   */
  function SplitFrom(s: seq<byte>, quoted: bool, current: seq<byte>, begun: bool): seq<seq<byte>> {
    if s == [] then (if begun then [current] else [])
    else if s[0] == QUOTE then SplitFrom(s[1..], !quoted, current, true)
    else if !quoted && (s[0] == 32 || s[0] == 9) then
      (if begun then [current] else []) + SplitFrom(s[1..], false, [], false)
    else SplitFrom(s[1..], quoted, current + [s[0]], true)
  }

  function SplitLine(s: seq<byte>): seq<seq<byte>> { SplitFrom(s, false, [], false) }

  lemma {:induction false} InsideQuotes(p: seq<byte>, rest: seq<byte>, current: seq<byte>)
    requires QUOTE !in p
    ensures SplitFrom(p + [QUOTE] + rest, true, current, true) == SplitFrom(rest, false, current + p, true)
  {
    var s := p + [QUOTE] + rest;
    if p == [] {
      assert s[1..] == rest && current + p == current;
    } else {
      assert s[1..] == p[1..] + [QUOTE] + rest;
      InsideQuotes(p[1..], rest, current + [p[0]]);
      assert current + [p[0]] + p[1..] == current + p;
    }
  }

  lemma {:induction false} PlainWord(w: seq<byte>, current: seq<byte>, begun: bool)
    requires QUOTE !in w && 32 !in w && 9 !in w && (begun || w != [])
    ensures SplitFrom(w, false, current, begun) == [current + w]
  {
    if w == [] {
      assert current + w == current;
    } else {
      PlainWord(w[1..], current + [w[0]], true);
      assert current + [w[0]] + w[1..] == current + w;
    }
  }

  /** The line that is built gives the started compiler its own path and the flag, and nothing else. */
  lemma CommandLineSplits(path: seq<byte>)
    requires QUOTE !in path
    ensures SplitLine(CommandLine(path)) == [path, FLAG]
  {
    var tail := [32] + FLAG;
    var s := CommandLine(path);
    assert s[0] == QUOTE && s[1..] == path + [QUOTE] + tail;
    assert SplitLine(s) == SplitFrom(path + [QUOTE] + tail, true, [], true);
    InsideQuotes(path, tail, []);
    assert [] + path == path && tail[1..] == FLAG;
    PlainWord(FLAG, [], false);
    assert [] + FLAG == FLAG;
  }

  /** One argument: its length in UTF-16 units and its UTF-8 form, if the conversion succeeds. */
  datatype Arg = Arg(units: nat, text: Option<seq<byte>>)

  /** What the conversion guarantees: no NUL inside, at most three bytes for a unit. */
  predicate Converts(a: Arg) { a.text.Some? ==> 0 !in a.text.value && |a.text.value| <= 3 * a.units }

  /** Units the recorded arguments take on a command line, each followed by one more at least. */
  function UnitsTaken(args: seq<Arg>): nat {
    if args == [] then 0 else UnitsTaken(args[..|args| - 1]) + args[|args| - 1].units + 1
  }

  /** The arguments recorded: all but the program's own name. */
  function Recorded(argv: seq<Arg>): seq<Arg> { if argv == [] then [] else argv[1..] }

  /** The arguments a process was started with: what precedes the first is the program itself. */
  ghost predicate CommandLineArgs(argv: seq<Arg>) {
    && (forall i :: 0 <= i < |argv| ==> Converts(argv[i]))
    && UnitsTaken(Recorded(argv)) <= COMMAND_LINE_UNITS
  }

  predicate AllConvert(args: seq<Arg>) { forall i :: 0 <= i < |args| ==> args[i].text.Some? }

  function Texts(args: seq<Arg>): (r: seq<seq<byte>>)
    requires AllConvert(args)
    ensures |r| == |args| && forall i :: 0 <= i < |r| ==> r[i] == args[i].text.value
  {
    seq(|args|, i requires 0 <= i < |args| => args[i].text.value)
  }

  /** The array text without its closing bracket. */
  function Opened(args: seq<seq<byte>>): seq<byte> {
    [OPEN] + (if args == [] then [] else Quoted(args[0]) + Tail(args[1..]))
  }

  lemma {:induction false} TailSnoc(args: seq<seq<byte>>, last: seq<byte>)
    ensures Tail(args + [last]) == Tail(args) + ([COMMA] + Quoted(last))
  {
    hide Quoted;
    if args == [] {
      assert [last][1..] == [] && args + [last] == [last];
    } else {
      assert (args + [last])[1..] == args[1..] + [last];
      TailSnoc(args[1..], last);
    }
  }

  lemma OpenedSnoc(args: seq<seq<byte>>, last: seq<byte>)
    ensures Opened(args + [last]) == Opened(args) + (if args == [] then [] else [COMMA]) + Quoted(last)
  {
    hide Quoted;
    if args == [] {
      assert args + [last] == [last] && [last][1..] == [];
    } else {
      assert (args + [last])[1..] == args[1..] + [last];
      TailSnoc(args[1..], last);
    }
  }

  /**
   The arithmetic behind the buffer: at most three bytes a unit, six bytes an escape, two quotes
   and a comma an argument, with a unit to spare for each.
   */
  lemma {:induction false} OpenedLength(args: seq<Arg>)
    requires AllConvert(args) && forall i :: 0 <= i < |args| ==> Converts(args[i])
    ensures |Opened(Texts(args))| <= 1 + 18 * UnitsTaken(args)
  {
    if args != [] {
      var front, last := args[..|args| - 1], args[|args| - 1];
      OpenedLength(front);
      assert Texts(args) == Texts(front) + [last.text.value];
      OpenedSnoc(Texts(front), last.text.value);
      EscapedLength(last.text.value);
      assert Converts(last);
    }
  }

  lemma {:induction false} UnitsTakenGrow(args: seq<Arg>, i: nat)
    requires i <= |args|
    ensures UnitsTaken(args[..i]) <= UnitsTaken(args)
    decreases |args| - i
  {
    if i < |args| {
      assert args[..i + 1][..i] == args[..i];
      UnitsTakenGrow(args, i + 1);
    } else {
      assert args[..i] == args;
    }
  }

  /** The array holds `s` as a NUL-terminated string. */
  ghost predicate Holds(a: array<byte>, s: seq<byte>)
    reads a
  {
    |s| < a.Length && a[..|s|] == s && a[|s|] == 0 && 0 !in s
  }

  /** `same`: true exactly for equal strings. */
  method Same(a: array<byte>, b: array<byte>, ghost s: seq<byte>, ghost t: seq<byte>) returns (r: bool)
    requires Holds(a, s) && Holds(b, t)
    ensures r <==> s == t
  {
    var i := 0;
    while a[i] != 0 && a[i] == b[i]
      invariant 0 <= i <= |s| && i <= |t| && s[..i] == t[..i]
      decreases |s| - i
    {
      CharAt(a, s, i);
      CharAt(b, t, i);
      i := i + 1;
    }
    r := a[i] == b[i];
    CharAt(a, s, i);
    CharAt(b, t, i);
    if r {
      assert s == s[..i] && t == t[..i];
    }
  }

  lemma HoldsLength(a: array<byte>, s: seq<byte>)
    requires Holds(a, s)
    ensures |s| < a.Length
  {}

  lemma CharAt(a: array<byte>, s: seq<byte>, i: nat)
    requires Holds(a, s) && i <= |s|
    ensures i < |s| ==> a[i] == s[i] && a[i] != 0
    ensures i == |s| ==> a[i] == 0
  {
    if i < |s| { assert a[..|s|][i] == s[i] && s[i] in s; }
  }

  /** The process-wide static buffers, all zero at the start. */
  class Recorder {
    const json: array<byte>
    const converted: array<byte>
    const command: array<byte>
    var used: nat

    ghost predicate Valid()
      reads this, json
    {
      && json.Length == JSON_SIZE && converted.Length == CONVERTED_SIZE && command.Length == COMMAND_SIZE
      && json != converted && json != command && converted != command && used <= json.Length
    }

    /** The text written so far. */
    ghost function Written(): seq<byte>
      requires Valid()
      reads this, json
    {
      json[..used]
    }

    constructor ()
      ensures Valid() && used == 0 && fresh(json) && fresh(converted) && fresh(command)
      ensures forall i :: 0 <= i < command.Length ==> command[i] == 0
    {
      json := new byte[JSON_SIZE](_ => 0);
      converted := new byte[CONVERTED_SIZE](_ => 0);
      command := new byte[COMMAND_SIZE](_ => 0);
      used := 0;
    }

    method Put(c: byte)
      requires Valid() && used < json.Length
      modifies this, json
      ensures Valid() && used == old(used) + 1 && Written() == old(Written()) + [c]
    {
      json[used] := c;
      used := used + 1;
    }

    /** `put_string`: quotes, with every byte escaped as it is reached. */
    method PutString(ghost text: seq<byte>)
      requires Valid() && Holds(converted, text) && used + |Quoted(text)| <= json.Length
      modifies this, json
      ensures Valid() && used == old(used) + |Quoted(text)| && Written() == old(Written()) + Quoted(text)
      ensures Holds(converted, text)
    {
      hide Escaped;
      Put(QUOTE);
      PutBytes(text);
      Put(QUOTE);
    }

    /** The loop of `put_string`. */
    method PutBytes(ghost text: seq<byte>)
      requires Valid() && Holds(converted, text) && used + |Escaped(text)| <= json.Length
      modifies this, json
      ensures Valid() && used == old(used) + |Escaped(text)| && Written() == old(Written()) + Escaped(text)
      ensures Holds(converted, text)
    {
      hide Escaped, EscapeByte, Holds;
      EscapedNothing(text);
      HoldsLength(converted, text);
      var i := 0;
      while converted[i] != 0
        invariant Valid() && 0 <= i <= |text| < converted.Length && Holds(converted, text)
        invariant used == old(used) + |Escaped(text[..i])|
        invariant Written() == old(Written()) + Escaped(text[..i])
        decreases |text| - i
      {
        CharAt(converted, text, i);
        EscapedStep(text, i);
        PutEscaped(converted[i]);
        i := i + 1;
      }
      CharAt(converted, text, i);
      assert text[..i] == text;
    }

    /** The loop body of `put_string`. */
    method PutEscaped(c: byte)
      requires Valid() && used + |EscapeByte(c)| <= json.Length
      modifies this, json
      ensures Valid() && used == old(used) + |EscapeByte(c)| && Written() == old(Written()) + EscapeByte(c)
    {
      if c == QUOTE || c == BACKSLASH {
        Put(BACKSLASH);
        Put(c);
      } else if c < 32 {
        PutUnicode(HexDigit(c / 16), HexDigit(c % 16));
      } else {
        Put(c);
      }
    }

    /** The six bytes of a control character's escape. */
    method PutUnicode(high: byte, low: byte)
      requires Valid() && used + 6 <= json.Length
      modifies this, json
      ensures Valid() && used == old(used) + 6 && Written() == old(Written()) + [BACKSLASH, 117, 48, 48, high, low]
    {
      hide Written;
      ghost var w := Written();
      Put(BACKSLASH);
      Put(117);
      assert Written() == w + [BACKSLASH, 117];
      Put(48);
      Put(48);
      assert Written() == w + [BACKSLASH, 117, 48, 48];
      Put(high);
      Put(low);
    }

    /** The conversion of one argument into `converted`, NUL-terminated. */
    method Convert(text: seq<byte>)
      requires Valid() && |text| < CONVERTED_SIZE && 0 !in text
      modifies converted
      ensures Valid() && Holds(converted, text) && Written() == old(Written())
    {
      for i := 0 to |text|
        invariant converted[..i] == text[..i] && Written() == old(Written())
      {
        converted[i] := text[i];
        assert converted[..i + 1] == converted[..i] + [text[i]];
      }
      converted[|text|] := 0;
      assert text[..|text|] == text;
    }

    /**
     The argv loop: nothing is ever put past the end of the buffer, and the text is the JSON array
     of all arguments but the program's name. The only failure is a conversion that fails.
     */
    method RecordArgs(argv: seq<Arg>) returns (ok: bool)
      requires Valid() && used == 0 && CommandLineArgs(argv)
      modifies this, json, converted
      ensures Valid()
      ensures ok <==> AllConvert(Recorded(argv))
      ensures ok ==> Written() == ArrayText(Texts(Recorded(argv)))
      ensures ok && |argv| > 1 ==> Holds(converted, argv[|argv| - 1].text.value)
    {
      ghost var args := Recorded(argv);
      Put(OPEN);
      var i := 1;
      while i < |argv|
        invariant 1 <= i <= |args| + 1 && Valid()
        invariant AllConvert(args[..i - 1]) && Written() == Opened(Texts(args[..i - 1]))
        invariant i > 1 ==> Holds(converted, argv[i - 1].text.value)
      {
        assert args[i - 1] == argv[i] && args == argv[1..];
        if argv[i].text.None? { return false; }
        ArgFits(argv, i);
        RecordOne(argv[i].text.value, i > 1);
        RecordedOne(args, i - 1);
        i := i + 1;
      }
      assert args[..i - 1] == args;
      AllFit(argv);
      Put(CLOSE);
      ok := true;
    }

    /** One turn of the loop, once its argument has been converted. */
    method RecordOne(text: seq<byte>, comma: bool)
      requires Valid() && 0 !in text && |text| < CONVERTED_SIZE
      requires used + 1 + |Quoted(text)| <= JSON_SIZE
      modifies this, json, converted
      ensures Valid() && Holds(converted, text)
      ensures Written() == old(Written()) + (if comma then [COMMA] else []) + Quoted(text)
    {
      Convert(text);
      if comma { Put(COMMA); }
      PutString(text);
    }

    /** `command[n++] = c`, the rest of the buffer still zero. */
    method PutCommand(n: nat, c: byte, ghost head: seq<byte>) returns (m: nat)
      requires Valid() && n < COMMAND_SIZE && command[..n] == head
      requires forall i :: n <= i < command.Length ==> command[i] == 0
      modifies command
      ensures Valid() && m == n + 1 && command[..m] == head + [c]
      ensures forall i :: m <= i < command.Length ==> command[i] == 0
    {
      command[n] := c;
      m := n + 1;
      assert command[..m] == command[..n] + [c];
    }

    /**
     The command line built in place: quoted path, quote, flag, and the NUL that was there. Nothing
     checks the buffer's end; the result says whether every write stayed inside it, and the model
     stops at the first that does not.
     */
    method BuildCommand(path: array<byte>, ghost p: seq<byte>) returns (inside: bool)
      requires Valid() && Holds(path, p) && |p| < PATH_SIZE && path != command
      requires forall i :: 0 <= i < command.Length ==> command[i] == 0
      modifies command
      ensures Valid() && (inside <==> |CommandLine(p)| <= COMMAND_SIZE)
      ensures |CommandLine(p)| < COMMAND_SIZE ==> Holds(command, CommandLine(p))
      ensures |CommandLine(p)| >= COMMAND_SIZE ==> command[..] == CommandLine(p)[..COMMAND_SIZE]
    {
      var n := PutCommand(0, QUOTE, []);
      var i := 0;
      while path[i] != 0
        invariant 0 <= i <= |p| && n == i + 1 && Holds(path, p) && Valid()
        invariant command[..n] == [QUOTE] + p[..i]
        invariant forall j :: n <= j < command.Length ==> command[j] == 0
        decreases |p| - i
      {
        CharAt(path, p, i);
        assert p[..i + 1] == p[..i] + [p[i]];
        n := PutCommand(n, path[i], [QUOTE] + p[..i]);
        i := i + 1;
      }
      CharAt(path, p, i);
      assert p[..i] == p;
      n := PutCommand(n, QUOTE, [QUOTE] + p);
      FlagNulFree();
      inside := PutTail(n, [32] + FLAG, [QUOTE] + p + [QUOTE]);
    }

    /** The last loop, over a space and the flag. */
    method PutTail(start: nat, tail: seq<byte>, ghost head: seq<byte>) returns (inside: bool)
      requires Valid() && start <= COMMAND_SIZE && command[..start] == head
      requires forall i :: start <= i < command.Length ==> command[i] == 0
      modifies command
      ensures Valid()
      ensures var line := head + tail;
              && (inside <==> |line| <= COMMAND_SIZE)
              && (inside ==> command[..|line|] == line) && (|line| < COMMAND_SIZE ==> command[|line|] == 0)
              && (|line| >= COMMAND_SIZE ==> command[..] == line[..COMMAND_SIZE])
    {
      var n := start;
      for k := 0 to |tail|
        invariant n == start + k && n <= COMMAND_SIZE && command[..n] == head + tail[..k] && Valid()
        invariant forall j :: n <= j < command.Length ==> command[j] == 0
      {
        if n == COMMAND_SIZE {
          FilledUp(head, tail, k, command[..]);
          return false;
        }
        assert tail[..k + 1] == tail[..k] + [tail[k]];
        n := PutCommand(n, tail[k], head + tail[..k]);
      }
      assert tail[..|tail|] == tail;
      inside := true;
    }

    /** What the command buffer holds as a C string, split as the started program splits it. */
    ghost predicate CommandGives(args: seq<seq<byte>>)
      reads this, command
    {
      exists line :: Holds(command, line) && SplitLine(line) == args
    }

    /**
     The whole program up to its last system calls. The real compiler is started exactly when it is
     named and the only argument is the flag; otherwise the array is what is written out.
     */
    method RecorderMain(argv: seq<Arg>, flag: array<byte>, realClang: array?<byte>, ghost p: seq<byte>)
      returns (outcome: Outcome)
      requires Valid() && used == 0 && CommandLineArgs(argv) && Holds(flag, FLAG)
      requires flag != json && flag != converted
      requires realClang != null ==> Holds(realClang, p) && |p| < PATH_SIZE
      requires realClang != json && realClang != converted && realClang != command
      requires forall i :: 0 <= i < command.Length ==> command[i] == 0
      modifies this, json, converted, command
      ensures Valid()
      ensures outcome == Exit5 <==> !AllConvert(Recorded(argv))
      ensures outcome == Forward || outcome == Overrun
          <==> |argv| == 2 && argv[1].text == Some(FLAG) && realClang != null
      ensures outcome == Overrun ==> |p| >= 32755
      ensures outcome == Forward ==> |p| <= 32754 && (|p| <= 32753 ==> Holds(command, CommandLine(p)))
      ensures outcome == Forward && |p| <= 32753 && QUOTE !in p ==> CommandGives([p, FLAG])
      ensures outcome == WriteArray ==> AllConvert(Recorded(argv)) && Written() == ArrayText(Texts(Recorded(argv)))
      ensures outcome == WriteArray ==> ReadsAsArguments(Written(), argv)
    {
      hide CommandLine, ArrayText, Texts, UnitsTaken, CommandLineArgs, ReadsAsArguments, SplitLine;
      var ok := RecordArgs(argv);
      if !ok {
        LoneArg(argv);
        return Exit5;
      }
      if |argv| == 2 {
        LoneArg(argv);
        var flagged := Same(converted, flag, argv[1].text.value, FLAG);
        if flagged && realClang != null {
          CommandLineFits(p);
          var inside := BuildCommand(realClang, p);
          if QUOTE !in p { CommandLineSplits(p); }
          return if inside then Forward else Overrun;
        }
      }
      ReadBack(argv);
      outcome := WriteArray;
    }
  }

  /** Read as JSON, the text is the array of the arguments after the program's name, in order. */
  ghost predicate ReadsAsArguments(text: seq<byte>, argv: seq<Arg>) {
    && ReadArray(text).Some? && |ReadArray(text).value| == (if argv == [] then 0 else |argv| - 1)
    && forall i :: 1 <= i < |argv| ==> argv[i].text == Some(ReadArray(text).value[i - 1])
  }

  lemma ReadBack(argv: seq<Arg>)
    requires AllConvert(Recorded(argv))
    ensures ReadsAsArguments(ArrayText(Texts(Recorded(argv))), argv)
  {
    var args := Recorded(argv);
    ArrayReadsBack(Texts(args));
    hide ArrayText, ReadArray;
    forall i | 1 <= i < |argv| ensures argv[i].text == Some(Texts(args)[i - 1]) {
      assert args[i - 1] == argv[i];
    }
  }

  datatype Outcome = Exit5 | Forward | Overrun | WriteArray

  lemma LoneArg(argv: seq<Arg>)
    ensures |argv| == 2 ==> (AllConvert(Recorded(argv)) <==> argv[1].text.Some?)
  {
    if |argv| == 2 { assert argv[1..][0] == argv[1]; }
  }

  lemma FilledUp(head: seq<byte>, tail: seq<byte>, k: nat, filled: seq<byte>)
    requires k < |tail| && filled == head + tail[..k]
    ensures (head + tail)[..|filled|] == filled && |filled| < |head + tail|
  {}

  lemma FlagNulFree()
    ensures 0 !in FLAG && |FLAG| == 19
  {}

  lemma EscapedNothing(text: seq<byte>)
    ensures Escaped(text[..0]) == []
  {}

  lemma EscapedStep(text: seq<byte>, i: nat)
    requires i < |text|
    ensures Escaped(text[..i + 1]) == Escaped(text[..i]) + EscapeByte(text[i])
    ensures |Escaped(text[..i + 1])| <= |Escaped(text)|
  {
    assert text[..i + 1] == text[..i] + [text[i]];
    EscapedAppend(text[..i], [text[i]]);
    assert [text[i]][1..] == [] && Escaped([text[i]]) == EscapeByte(text[i]) + [];
    assert text == text[..i + 1] + text[i + 1..];
    EscapedAppend(text[..i + 1], text[i + 1..]);
  }

  /** Room for one more argument, whatever has been recorded. */
  lemma ArgFits(argv: seq<Arg>, i: nat)
    requires CommandLineArgs(argv) && 1 <= i < |argv| && AllConvert(argv[1..][..i - 1]) && argv[i].text.Some?
    ensures 0 !in argv[i].text.value && |argv[i].text.value| < CONVERTED_SIZE
    ensures |Opened(Texts(argv[1..][..i - 1]))| + 1 + |Quoted(argv[i].text.value)| <= JSON_SIZE
  {
    var args := argv[1..];
    var done := args[..i - 1];
    assert forall j :: 0 <= j < |done| ==> done[j] == argv[j + 1];
    assert args[..i][..i - 1] == done && args[..i][i - 1] == argv[i];
    assert UnitsTaken(args[..i]) == UnitsTaken(done) + argv[i].units + 1;
    UnitsTakenGrow(args, i);
    OpenedLength(done);
    assert Converts(argv[i]);
    EscapedLength(argv[i].text.value);
  }

  lemma RecordedOne(args: seq<Arg>, k: nat)
    requires k < |args| && AllConvert(args[..k]) && args[k].text.Some?
    ensures AllConvert(args[..k + 1])
    ensures Opened(Texts(args[..k + 1]))
         == Opened(Texts(args[..k])) + (if k > 0 then [COMMA] else []) + Quoted(args[k].text.value)
  {
    assert args[..k + 1] == args[..k] + [args[k]];
    assert Texts(args[..k + 1]) == Texts(args[..k]) + [args[k].text.value];
    OpenedSnoc(Texts(args[..k]), args[k].text.value);
  }

  /** Room for the closing bracket. */
  lemma AllFit(argv: seq<Arg>)
    requires CommandLineArgs(argv) && AllConvert(Recorded(argv))
    ensures |Opened(Texts(Recorded(argv)))| < JSON_SIZE
  {
    if argv != [] {
      assert forall j :: 0 <= j < |argv[1..]| ==> argv[1..][j] == argv[j + 1];
      OpenedLength(argv[1..]);
    }
  }
}
