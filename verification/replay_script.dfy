/**
 * The replay-script writer of the simulated plotter: the command log becomes
 * the lines of a Python program that issues the same moves on a device, with
 * a prompt at every colour change. A reader for those lines is the writer's
 * partner: reading a script back gives the options and the steps it replays,
 * and replaying those steps measures the same path as the original run.
 */
module ReplayScript {
  import opened Wrappers
  import opened Plotting
  import opened DualPlotter
  import opened PyLiteral

  /**
   * Number formatting: `round(x, 3)` and `repr` of the rounded float. Python's
   * float rounding and shortest-repr printing are left abstract.
   */
  datatype Numerals = Numerals(round3: real -> real, repr: real -> string)

  /**
   * What a reader relies on from `repr` for one printed value: `parse` reads it
   * back (Python's `float(repr(v)) == v` for the floats it prints), and the
   * printed text holds no comma and no closing parenthesis.
   */
  predicate PrintsBack(repr: real -> string, parse: string -> real, v: real)
  {
    parse(repr(v)) == v && ',' !in repr(v) && ')' !in repr(v)
  }

  // ---------------------------------------------------------------- writer

  const MovePrefix := "    ad.moveto("
  const LinePrefix := "    ad.lineto("
  const CommentPrefix := "    #"
  const InputPrefix := "    input('"
  const InputSuffix := "')"
  const AskHead := "Please change the color to "
  const AskTail := "! Press Enter to continue..."
  const InsertedNote := "  # inserted to ensure valid start"
  const Placeholder := CommentPrefix + " (No movements were recorded.)"
  const Intro := CommentPrefix + " Replay recorded moves (inches) and color changes:"
  const ColorComment := CommentPrefix + " --- Color change requested ---"
  /** The literal park move `    ad.moveto(0.0, 0.0)` before every colour prompt. */
  const ParkLine := CoordLine(MovePrefix, "0.0", "0.0")

  /** A device call with its two printed coordinates. */
  function CoordLine(prefix: string, a: string, b: string): string
  {
    prefix + a + ", " + b + ")"
  }

  /** The call line for a recorded motion, coordinates rounded to three places. */
  function MotionLine(num: Numerals, prefix: string, x: real, y: real): string
  {
    CoordLine(prefix, num.repr(num.round3(x)), num.repr(num.round3(y)))
  }

  /** The prompt asking for the new pen, the name's quotes escaped. */
  function PromptLine(name: string): string
  {
    InputPrefix + AskHead + EscapeQuotes(name) + AskTail + InputSuffix
  }

  function OptionLine(key: string, num: Numerals, v: real): string
  {
    "    ad.options." + key + " = " + num.repr(v)
  }

  /** The fixed preamble, with the snapshot's five options assigned on lines 8 to 12. */
  function Header(o: Options, num: Numerals): (lines: seq<string>)
    ensures |lines| == 18
  {
    [ "# Auto-generated by DualPlotter (offline recorder)",
      "# Replays the captured drawing on a real AxiDraw.",
      "from pyaxidraw import axidraw",
      "",
      "def main():",
      "    ad = axidraw.AxiDraw()",
      "    ad.interactive()",
      "    # Apply recorded options",
      OptionLine("pen_pos_down", num, o.penPosDown),
      OptionLine("pen_pos_up", num, o.penPosUp),
      OptionLine("speed_pendown", num, o.speedPendown),
      OptionLine("speed_penup", num, o.speedPenup),
      OptionLine("accel", num, o.accel),
      "",
      "    if not ad.connect():",
      "        print(\"Could not connect to AxiDraw.\")",
      "        return",
      "" ]
  }

  const Footer: seq<string> :=
    ["", "    ad.disconnect()", "", "if __name__ == \"__main__\":", "    main()"]

  /** The lines one log entry becomes. */
  function EntryLines(num: Numerals, c: Call): seq<string>
  {
    match c
    case MoveTo(x, y) => [MotionLine(num, MovePrefix, x, y)]
    case LineTo(x, y) => [MotionLine(num, LinePrefix, x, y)]
    case ColorChange(n) => [ColorComment, ParkLine, PromptLine(n)]
  }

  function EntriesLines(num: Numerals, log: seq<Call>): seq<string>
  {
    if |log| == 0 then []
    else EntriesLines(num, log[..|log| - 1]) + EntryLines(num, log[|log| - 1])
  }

  /**
   * The body: a placeholder for an empty log; otherwise an introductory comment,
   * then a synthesised move in place of a leading `lineto`, then every entry.
   */
  function BodyLines(num: Numerals, log: seq<Call>): seq<string>
  {
    if |log| == 0 then [Placeholder]
    else if log[0].LineTo? then
      [Intro, MotionLine(num, MovePrefix, log[0].x, log[0].y) + InsertedNote]
        + EntriesLines(num, log[1..])
    else [Intro] + EntriesLines(num, log)
  }

  /** `_write_replay_script`'s line list. */
  function ScriptLines(o: Options, num: Numerals, log: seq<Call>): (lines: seq<string>)
    ensures |lines| >= 24
  {
    Header(o, num) + BodyLines(num, log) + Footer
  }

  /**
   * The header and footer always surround the body; the body is the placeholder
   * exactly when the log is empty, and a leading `lineto` is replaced by a move.
   */
  lemma ScriptFrame(o: Options, num: Numerals, log: seq<Call>)
    ensures var lines := ScriptLines(o, num, log);
            && lines[..18] == Header(o, num)
            && lines[|lines| - 5..] == Footer
            && (|log| == 0 <==> |lines| == 24 && lines[18] == Placeholder)
            && (|log| > 0 ==> lines[18] == Intro)
            && (|log| > 0 && log[0].LineTo? ==>
                  lines[19] == MotionLine(num, MovePrefix, log[0].x, log[0].y) + InsertedNote)
  {
    var lines := ScriptLines(o, num, log);
    assert |Intro| != |Placeholder|;
    assert lines[..18] == Header(o, num);
    assert lines[|lines| - 5..] == Footer;
  }

  /**
   * Writing the script: the options come from the snapshot, which is taken now
   * if no `connect` took it earlier.
   */
  function WriteReplayScript(s: Session, num: Numerals): (r: (Session, seq<string>))
    ensures r.0.snapshot.Some?
    ensures s.snapshot.Some? ==> r.0.snapshot == s.snapshot
    ensures s.snapshot.None? ==> r.0.snapshot == Some(s.options)
    ensures r.1 == ScriptLines(r.0.snapshot.value, num, s.log)
    ensures r.0 == s.(snapshot := r.0.snapshot)
  {
    var o := if s.snapshot.Some? then s.snapshot.value else s.options;
    (s.(snapshot := Some(o)), ScriptLines(o, num, s.log))
  }

  /** After a first `connect`, the script records the options of that moment, whatever changed since. */
  lemma ScriptUsesFirstConnectOptions(s: Session, changes: seq<Options>, num: Numerals)
    ensures var t := ReconnectAfter(Connect(s).0, changes);
            var o := if s.snapshot.Some? then s.snapshot.value else s.options;
            WriteReplayScript(t, num).1 == ScriptLines(o, num, t.log)
  {
    SnapshotTakenOnce(s, changes);
  }

  // ---------------------------------------------------------------- what the script does

  /** One replayed action: a move, a drawn line, or a pause for a pen change. */
  datatype Step = Moved(x: real, y: real) | Drew(x: real, y: real) | Prompted(name: string)

  function EntrySteps(num: Numerals, c: Call): seq<Step>
  {
    match c
    case MoveTo(x, y) => [Moved(num.round3(x), num.round3(y))]
    case LineTo(x, y) => [Drew(num.round3(x), num.round3(y))]
    case ColorChange(n) => [Moved(0.0, 0.0), Prompted(n)]
  }

  function EntriesSteps(num: Numerals, log: seq<Call>): seq<Step>
  {
    if |log| == 0 then []
    else EntriesSteps(num, log[..|log| - 1]) + EntrySteps(num, log[|log| - 1])
  }

  /** The steps the written script performs, in order. */
  function ScriptSteps(num: Numerals, log: seq<Call>): seq<Step>
  {
    if |log| > 0 && log[0].LineTo? then
      [Moved(num.round3(log[0].x), num.round3(log[0].y))] + EntriesSteps(num, log[1..])
    else EntriesSteps(num, log)
  }

  // ---------------------------------------------------------------- reader

  predicate HasPrefix(s: string, p: string)
  {
    |p| <= |s| && s[..|p|] == p
  }

  predicate HasSuffix(s: string, q: string)
  {
    |q| <= |s| && s[|s| - |q|..] == q
  }

  /** The position of the first `c` in `s`, or `|s|` if there is none. */
  function FirstIndex(c: char, s: string): (k: nat)
    ensures k <= |s|
    ensures forall i :: 0 <= i < k ==> s[i] != c
    ensures k < |s| ==> s[k] == c
    decreases |s|
  {
    if |s| == 0 then 0
    else if s[0] == c then 0
    else 1 + FirstIndex(c, s[1..])
  }

  /** The two numbers of "a, b)…": up to the first comma, then up to the first parenthesis. */
  function ReadCoords(rest: string, parse: string -> real): Option<(real, real)>
  {
    var k := FirstIndex(',', rest);
    if k + 1 >= |rest| || rest[k + 1] != ' ' then None
    else
      var after := rest[k + 2..];
      var m := FirstIndex(')', after);
      if m == |after| then None
      else Some((parse(rest[..k]), parse(after[..m])))
  }

  /** The name a prompt line asks for, when the line is a well-formed prompt. */
  function ReadPrompt(line: string): Option<string>
  {
    if !HasPrefix(line, InputPrefix) || |line| < |InputPrefix| + |InputSuffix|
       || !HasSuffix(line, InputSuffix) then None
    else
      var d := Decode(line[|InputPrefix|..|line| - |InputSuffix|]);
      if d.None? || |d.value| < |AskHead| + |AskTail|
         || !HasPrefix(d.value, AskHead) || !HasSuffix(d.value, AskTail) then None
      else Some(d.value[|AskHead|..|d.value| - |AskTail|])
  }

  /** The steps one body line performs: none for a comment, None for a line it does not recognise. */
  function ReadLine(line: string, parse: string -> real): Option<seq<Step>>
  {
    if HasPrefix(line, CommentPrefix) then Some([])
    else if HasPrefix(line, MovePrefix) then
      var p := ReadCoords(line[|MovePrefix|..], parse);
      if p.None? then None else Some([Moved(p.value.0, p.value.1)])
    else if HasPrefix(line, LinePrefix) then
      var p := ReadCoords(line[|LinePrefix|..], parse);
      if p.None? then None else Some([Drew(p.value.0, p.value.1)])
    else
      var n := ReadPrompt(line);
      if n.None? then None else Some([Prompted(n.value)])
  }

  function ReadLines(lines: seq<string>, parse: string -> real): Option<seq<Step>>
  {
    if |lines| == 0 then Some([])
    else
      var init := ReadLines(lines[..|lines| - 1], parse);
      var last := ReadLine(lines[|lines| - 1], parse);
      if init.None? || last.None? then None else Some(init.value + last.value)
  }

  function ReadOption(line: string, key: string, parse: string -> real): Option<real>
  {
    var p := "    ad.options." + key + " = ";
    if HasPrefix(line, p) then Some(parse(line[|p|..])) else None
  }

  /** The recorded options and the replayed steps of a script. */
  function ReadScript(lines: seq<string>, parse: string -> real): Option<(Options, seq<Step>)>
  {
    if |lines| < 23 then None
    else
      var a := ReadOption(lines[8], "pen_pos_down", parse);
      var b := ReadOption(lines[9], "pen_pos_up", parse);
      var c := ReadOption(lines[10], "speed_pendown", parse);
      var d := ReadOption(lines[11], "speed_penup", parse);
      var e := ReadOption(lines[12], "accel", parse);
      var steps := ReadLines(lines[18..|lines| - 5], parse);
      if a.None? || b.None? || c.None? || d.None? || e.None? || steps.None? then None
      else Some((Options(a.value, b.value, c.value, d.value, e.value), steps.value))
  }

  // ---------------------------------------------------------------- reading the writer's lines

  /**
   * One log entry reads back: the rounded coordinates of a motion print back,
   * and for a colour change the park literal "0.0" reads as zero and the name
   * survives quote escaping.
   */
  predicate EntryReadsBack(num: Numerals, parse: string -> real, c: Call)
  {
    match c
    case MoveTo(x, y) => PrintsBack(num.repr, parse, num.round3(x)) && PrintsBack(num.repr, parse, num.round3(y))
    case LineTo(x, y) => PrintsBack(num.repr, parse, num.round3(x)) && PrintsBack(num.repr, parse, num.round3(y))
    case ColorChange(n) => parse("0.0") == 0.0 && Escapable(n)
  }

  /** Every entry of the log reads back. */
  predicate LogReadsBack(num: Numerals, parse: string -> real, log: seq<Call>)
  {
    forall i :: 0 <= i < |log| ==> EntryReadsBack(num, parse, log[i])
  }

  /** The five printed option values read back. */
  predicate OptionsReadBack(num: Numerals, parse: string -> real, o: Options)
  {
    && parse(num.repr(o.penPosDown)) == o.penPosDown
    && parse(num.repr(o.penPosUp)) == o.penPosUp
    && parse(num.repr(o.speedPendown)) == o.speedPendown
    && parse(num.repr(o.speedPenup)) == o.speedPenup
    && parse(num.repr(o.accel)) == o.accel
  }

  lemma PrefixOfAppend(p: string, x: string)
    ensures HasPrefix(p + x, p)
  {
    assert (p + x)[..|p|] == p;
  }

  /** A line that starts with `p` does not start with a `q` that differs from `p` at `i`. */
  lemma PrefixesClash(line: string, p: string, q: string, i: nat)
    requires HasPrefix(line, p)
    requires i < |p| && i < |q| && p[i] != q[i]
    ensures !HasPrefix(line, q)
  {
    assert line[i] == p[i];
  }

  lemma FirstIndexAt(c: char, u: string, v: string)
    requires forall i :: 0 <= i < |u| ==> u[i] != c
    requires |v| > 0 && v[0] == c
    ensures FirstIndex(c, u + v) == |u|
  {
    var k := FirstIndex(c, u + v);
    assert (u + v)[|u|] == c;
  }

  /** The coordinates of "a, b)…" come back when `a` has no comma and `b` no parenthesis. */
  lemma ReadCoordsOf(a: string, b: string, tail: string, parse: string -> real)
    requires ',' !in a && ')' !in b
    ensures ReadCoords(a + ", " + b + ")" + tail, parse) == Some((parse(a), parse(b)))
  {
    var rest := a + ", " + b + ")" + tail;
    assert rest == a + (", " + b + ")" + tail);
    FirstIndexAt(',', a, ", " + b + ")" + tail);
    var k := |a|;
    assert rest[k + 1] == ' ';
    assert rest[..k] == a;
    var after := rest[k + 2..];
    assert after == b + (")" + tail);
    FirstIndexAt(')', b, ")" + tail);
    assert after[..|b|] == b;
  }

  /** A motion line reads back as the motion, with the coordinates the writer printed. */
  lemma ReadMotionLine(num: Numerals, prefix: string, x: real, y: real, tail: string,
                       parse: string -> real)
    requires PrintsBack(num.repr, parse, num.round3(x)) && PrintsBack(num.repr, parse, num.round3(y))
    requires prefix == MovePrefix || prefix == LinePrefix
    ensures var r := ReadLine(MotionLine(num, prefix, x, y) + tail, parse);
            var x3, y3 := num.round3(x), num.round3(y);
            r == Some([if prefix == MovePrefix then Moved(x3, y3) else Drew(x3, y3)])
  {
    var a, b := num.repr(num.round3(x)), num.repr(num.round3(y));
    var rest := a + ", " + b + ")" + tail;
    var line := MotionLine(num, prefix, x, y) + tail;
    assert line == prefix + rest;
    PrefixOfAppend(prefix, rest);
    PrefixesClash(line, prefix, CommentPrefix, 4);
    if prefix == LinePrefix {
      PrefixesClash(line, prefix, MovePrefix, 7);
    }
    assert line[|prefix|..] == rest;
    ReadCoordsOf(a, b, tail, parse);
  }

  /** The park move of a colour change reads back as a move to the origin. */
  lemma ReadParkLine(parse: string -> real)
    requires parse("0.0") == 0.0
    ensures ReadLine(ParkLine, parse) == Some([Moved(0.0, 0.0)])
  {
    var rest := "0.0" + ", " + "0.0" + ")" + "";
    assert ParkLine == MovePrefix + rest;
    PrefixOfAppend(MovePrefix, rest);
    PrefixesClash(ParkLine, MovePrefix, CommentPrefix, 4);
    assert ParkLine[|MovePrefix|..] == rest;
    assert ',' !in "0.0" && ')' !in "0.0";
    ReadCoordsOf("0.0", "0.0", "", parse);
  }

  lemma ReadComment(line: string, parse: string -> real)
    requires HasPrefix(line, CommentPrefix)
    ensures ReadLines([line], parse) == Some([])
  {
    ReadOneLine(line, parse);
  }

  /** The writer's comment lines all start with the comment prefix. */
  lemma CommentsAreComments()
    ensures HasPrefix(Placeholder, CommentPrefix)
    ensures HasPrefix(Intro, CommentPrefix)
    ensures HasPrefix(ColorComment, CommentPrefix)
  {
    PrefixOfAppend(CommentPrefix, " (No movements were recorded.)");
    PrefixOfAppend(CommentPrefix, " Replay recorded moves (inches) and color changes:");
    PrefixOfAppend(CommentPrefix, " --- Color change requested ---");
  }

  lemma AskIsPlain()
    ensures forall i :: 0 <= i < |AskHead| ==> Plain(AskHead[i])
    ensures forall i :: 0 <= i < |AskTail| ==> Plain(AskTail[i])
  {
  }

  /** The prompt's literal body decodes to the message around the unescaped name. */
  lemma PromptBodyDecodes(name: string)
    requires Escapable(name)
    ensures Decode(AskHead + EscapeQuotes(name) + AskTail) == Some(AskHead + name + AskTail)
  {
    AskIsPlain();
    DecodeAround(AskHead, name, AskTail);
  }

  /** The name is what lies between the message's head and tail. */
  lemma AskedName(name: string)
    ensures var d := AskHead + name + AskTail;
            && |d| >= |AskHead| + |AskTail|
            && HasPrefix(d, AskHead) && HasSuffix(d, AskTail)
            && d[|AskHead|..|d| - |AskTail|] == name
  {
    var d := AskHead + name + AskTail;
    assert d == AskHead + (name + AskTail);
    PrefixOfAppend(AskHead, name + AskTail);
    assert d[|d| - |AskTail|..] == AskTail;
  }

  /** A prompt line is an `input` call around its literal body, and no other kind of line. */
  lemma PromptLineShape(name: string)
    ensures var line := PromptLine(name);
            && HasPrefix(line, InputPrefix) && HasSuffix(line, InputSuffix)
            && |line| >= |InputPrefix| + |InputSuffix|
            && line[|InputPrefix|..|line| - |InputSuffix|] == AskHead + EscapeQuotes(name) + AskTail
            && !HasPrefix(line, CommentPrefix) && !HasPrefix(line, MovePrefix)
            && !HasPrefix(line, LinePrefix)
  {
    var body := AskHead + EscapeQuotes(name) + AskTail;
    var line := PromptLine(name);
    assert line == InputPrefix + (body + InputSuffix);
    PrefixOfAppend(InputPrefix, body + InputSuffix);
    PrefixesClash(line, InputPrefix, CommentPrefix, 4);
    PrefixesClash(line, InputPrefix, MovePrefix, 4);
    PrefixesClash(line, InputPrefix, LinePrefix, 4);
    assert line[|line| - |InputSuffix|..] == InputSuffix;
    assert line[|InputPrefix|..|line| - |InputSuffix|] == body;
  }

  /** A prompt line reads back as the colour name it was written for. */
  lemma ReadPromptLine(name: string, parse: string -> real)
    requires Escapable(name)
    ensures ReadLine(PromptLine(name), parse) == Some([Prompted(name)])
  {
    PromptLineShape(name);
    PromptBodyDecodes(name);
    AskedName(name);
  }

  /** Reading is line by line: the steps of two blocks are the steps of each, in order. */
  lemma {:induction false} ReadLinesAppend(a: seq<string>, b: seq<string>, parse: string -> real)
    requires ReadLines(a, parse).Some? && ReadLines(b, parse).Some?
    ensures ReadLines(a + b, parse) == Some(ReadLines(a, parse).value + ReadLines(b, parse).value)
    decreases |b|
  {
    if |b| == 0 {
      assert a + b == a;
      assert ReadLines(a, parse).value + [] == ReadLines(a, parse).value;
    } else {
      var init := b[..|b| - 1];
      assert ReadLines(init, parse).Some?;
      assert (a + b)[..|a + b| - 1] == a + init;
      assert (a + b)[|a + b| - 1] == b[|b| - 1];
      ReadLinesAppend(a, init, parse);
      var ra, ri, rl := ReadLines(a, parse).value, ReadLines(init, parse).value,
                        ReadLine(b[|b| - 1], parse).value;
      assert ra + ri + rl == ra + (ri + rl);
    }
  }

  lemma ReadOneLine(line: string, parse: string -> real)
    requires ReadLine(line, parse).Some?
    ensures ReadLines([line], parse) == ReadLine(line, parse)
  {
    assert [line][..0] == [];
    assert [] + ReadLine(line, parse).value == ReadLine(line, parse).value;
  }

  /** The three lines of a colour change read back as the park move and the prompt. */
  lemma ReadColorEntry(n: string, parse: string -> real)
    requires parse("0.0") == 0.0 && Escapable(n)
    ensures ReadLines([ColorComment, ParkLine, PromptLine(n)], parse)
              == Some([Moved(0.0, 0.0), Prompted(n)])
  {
    CommentsAreComments();
    ReadComment(ColorComment, parse);
    ReadParkLine(parse);
    ReadPromptLine(n, parse);
    ReadOneLine(ParkLine, parse);
    ReadOneLine(PromptLine(n), parse);
    ReadLinesAppend([ColorComment], [ParkLine], parse);
    assert [ColorComment] + [ParkLine] == [ColorComment, ParkLine];
    assert [] + [Moved(0.0, 0.0)] == [Moved(0.0, 0.0)];
    ReadLinesAppend([ColorComment, ParkLine], [PromptLine(n)], parse);
    assert [ColorComment, ParkLine] + [PromptLine(n)] == [ColorComment, ParkLine, PromptLine(n)];
    assert [Moved(0.0, 0.0)] + [Prompted(n)] == [Moved(0.0, 0.0), Prompted(n)];
  }

  /** The line of a recorded motion reads back as its rounded motion. */
  lemma ReadMotionEntry(num: Numerals, prefix: string, x: real, y: real, parse: string -> real)
    requires PrintsBack(num.repr, parse, num.round3(x)) && PrintsBack(num.repr, parse, num.round3(y))
    requires prefix == MovePrefix || prefix == LinePrefix
    ensures var x3, y3 := num.round3(x), num.round3(y);
            ReadLines([MotionLine(num, prefix, x, y)], parse)
              == Some([if prefix == MovePrefix then Moved(x3, y3) else Drew(x3, y3)])
  {
    ReadMotionLine(num, prefix, x, y, "", parse);
    assert MotionLine(num, prefix, x, y) + "" == MotionLine(num, prefix, x, y);
    ReadOneLine(MotionLine(num, prefix, x, y), parse);
  }

  /** The lines of one log entry read back as that entry's steps. */
  lemma ReadEntry(num: Numerals, c: Call, parse: string -> real)
    requires EntryReadsBack(num, parse, c)
    ensures ReadLines(EntryLines(num, c), parse) == Some(EntrySteps(num, c))
  {
    match c
    case MoveTo(x, y) => ReadMotionEntry(num, MovePrefix, x, y, parse);
    case LineTo(x, y) => ReadMotionEntry(num, LinePrefix, x, y, parse);
    case ColorChange(n) => ReadColorEntry(n, parse);
  }

  /** Every entry's lines read back as its steps, in log order. */
  lemma {:induction false} ReadEntries(num: Numerals, log: seq<Call>, parse: string -> real)
    requires LogReadsBack(num, parse, log)
    ensures ReadLines(EntriesLines(num, log), parse) == Some(EntriesSteps(num, log))
    decreases |log|
  {
    if |log| > 0 {
      var init, c := log[..|log| - 1], log[|log| - 1];
      assert LogReadsBack(num, parse, init) by {
        forall i | 0 <= i < |init|
          ensures EntryReadsBack(num, parse, init[i])
        {
          assert init[i] == log[i];
        }
      }
      ReadEntries(num, init, parse);
      ReadEntry(num, c, parse);
      ReadLinesAppend(EntriesLines(num, init), EntryLines(num, c), parse);
    }
  }

  lemma LogReadsBackTail(num: Numerals, parse: string -> real, log: seq<Call>)
    requires |log| > 0 && LogReadsBack(num, parse, log)
    ensures LogReadsBack(num, parse, log[1..])
  {
    forall i | 0 <= i < |log| - 1
      ensures EntryReadsBack(num, parse, log[1..][i])
    {
      assert log[1..][i] == log[i + 1];
    }
  }

  /** The introduction and the move inserted for a leading `lineto` read back as that move. */
  lemma ReadInsertedStart(num: Numerals, x: real, y: real, parse: string -> real)
    requires PrintsBack(num.repr, parse, num.round3(x)) && PrintsBack(num.repr, parse, num.round3(y))
    ensures ReadLines([Intro, MotionLine(num, MovePrefix, x, y) + InsertedNote], parse)
              == Some([Moved(num.round3(x), num.round3(y))])
  {
    var first := MotionLine(num, MovePrefix, x, y) + InsertedNote;
    CommentsAreComments();
    ReadComment(Intro, parse);
    ReadMotionLine(num, MovePrefix, x, y, InsertedNote, parse);
    ReadOneLine(first, parse);
    ReadLinesAppend([Intro], [first], parse);
    assert [Intro] + [first] == [Intro, first];
  }

  /** The body reads back as exactly the steps the script performs. */
  lemma ReadBody(num: Numerals, log: seq<Call>, parse: string -> real)
    requires LogReadsBack(num, parse, log)
    ensures ReadLines(BodyLines(num, log), parse) == Some(ScriptSteps(num, log))
  {
    CommentsAreComments();
    if |log| == 0 {
      ReadComment(Placeholder, parse);
    } else {
      ReadComment(Intro, parse);
      if log[0].LineTo? {
        var first := MotionLine(num, MovePrefix, log[0].x, log[0].y) + InsertedNote;
        ReadInsertedStart(num, log[0].x, log[0].y, parse);
        assert EntryReadsBack(num, parse, log[0]);
        LogReadsBackTail(num, parse, log);
        ReadEntries(num, log[1..], parse);
        ReadLinesAppend([Intro, first], EntriesLines(num, log[1..]), parse);
      } else {
        ReadEntries(num, log, parse);
        ReadLinesAppend([Intro], EntriesLines(num, log), parse);
        assert [] + EntriesSteps(num, log) == EntriesSteps(num, log);
      }
    }
  }

  lemma ReadOptionLine(key: string, num: Numerals, v: real, parse: string -> real)
    requires parse(num.repr(v)) == v
    ensures ReadOption(OptionLine(key, num, v), key, parse) == Some(v)
  {
    var p := "    ad.options." + key + " = ";
    assert OptionLine(key, num, v) == p + num.repr(v);
    PrefixOfAppend(p, num.repr(v));
    assert (p + num.repr(v))[|p|..] == num.repr(v);
  }

  /**
   * Reading a written script gives back the snapshot's options and the steps the
   * script performs, when `parse` reads back each number the script prints and no
   * colour name holds a backslash or a line break.
   */
  lemma ScriptReadsBack(o: Options, num: Numerals, log: seq<Call>, parse: string -> real)
    requires OptionsReadBack(num, parse, o) && LogReadsBack(num, parse, log)
    ensures ReadScript(ScriptLines(o, num, log), parse) == Some((o, ScriptSteps(num, log)))
  {
    var lines := ScriptLines(o, num, log);
    var h := Header(o, num);
    assert lines[8] == h[8] && lines[9] == h[9] && lines[10] == h[10];
    assert lines[11] == h[11] && lines[12] == h[12];
    ReadOptionLine("pen_pos_down", num, o.penPosDown, parse);
    ReadOptionLine("pen_pos_up", num, o.penPosUp, parse);
    ReadOptionLine("speed_pendown", num, o.speedPendown, parse);
    ReadOptionLine("speed_penup", num, o.speedPenup, parse);
    ReadOptionLine("accel", num, o.accel, parse);
    assert lines[18..|lines| - 5] == BodyLines(num, log);
    ReadBody(num, log, parse);
  }

  // ---------------------------------------------------------------- replaying the steps

  /** The device calls the steps make; a prompt only waits. */
  function StepCalls(steps: seq<Step>): seq<Call>
  {
    if |steps| == 0 then []
    else
      var last := steps[|steps| - 1];
      StepCalls(steps[..|steps| - 1])
        + match last
          case Moved(x, y) => [MoveTo(x, y)]
          case Drew(x, y) => [LineTo(x, y)]
          case Prompted(_) => []
  }

  lemma {:induction false} StepCallsAppend(a: seq<Step>, b: seq<Step>)
    ensures StepCalls(a + b) == StepCalls(a) + StepCalls(b)
    decreases |b|
  {
    if |b| == 0 {
      assert a + b == a;
    } else {
      var init := b[..|b| - 1];
      assert (a + b)[..|a + b| - 1] == a + init;
      assert (a + b)[|a + b| - 1] == b[|b| - 1];
      StepCallsAppend(a, init);
    }
  }

  /** Rounding to three places leaves every recorded coordinate as it is. */
  predicate Unrounded(round3: real -> real, log: seq<Call>)
  {
    forall i :: 0 <= i < |log| && !log[i].ColorChange? ==>
      round3(log[i].x) == log[i].x && round3(log[i].y) == log[i].y
  }

  /** The device call an entry's steps make: a colour entry parks the pen, a move or line is made as logged. */
  lemma EntryStepCalls(num: Numerals, c: Call)
    requires !c.ColorChange? ==> num.round3(c.x) == c.x && num.round3(c.y) == c.y
    ensures StepCalls(EntrySteps(num, c)) == [if c.ColorChange? then MoveTo(0.0, 0.0) else c]
  {
    if c.ColorChange? {
      StepCallsAppend([Moved(0.0, 0.0)], [Prompted(c.name)]);
      assert [Moved(0.0, 0.0)][..0] == [] && [Prompted(c.name)][..0] == [];
      assert [Moved(0.0, 0.0), Prompted(c.name)] == [Moved(0.0, 0.0)] + [Prompted(c.name)];
    } else {
      assert EntrySteps(num, c)[..0] == [];
    }
  }

  /** Replaying one entry's steps measures what running the entry does. */
  lemma ReplayEntry(s: Session, t: Session, num: Numerals, c: Call, dist: DistFn)
    requires Tally(s) == Tally(t)
    requires !c.ColorChange? ==> num.round3(c.x) == c.x && num.round3(c.y) == c.y
    ensures Tally(Run(t, StepCalls(EntrySteps(num, c)), dist)) == Tally(Apply(s, c, dist))
  {
    var d := if c.ColorChange? then MoveTo(0.0, 0.0) else c;
    EntryStepCalls(num, c);
    RunOne(t, d, dist);
    ApplyAccumulates(s, c, dist);
    ApplyAccumulates(t, d, dist);
  }

  lemma UnroundedPrefix(round3: real -> real, log: seq<Call>, n: nat)
    requires n <= |log| && Unrounded(round3, log)
    ensures Unrounded(round3, log[..n])
  {
    forall i | 0 <= i < n && !log[..n][i].ColorChange?
      ensures round3(log[..n][i].x) == log[..n][i].x && round3(log[..n][i].y) == log[..n][i].y
    {
      assert log[..n][i] == log[i];
    }
  }

  /** Replaying the entries' steps measures what running the entries does. */
  lemma {:induction false} ReplayEntries(s: Session, t: Session, num: Numerals, log: seq<Call>,
                                         dist: DistFn)
    requires Tally(s) == Tally(t) && Unrounded(num.round3, log)
    ensures Tally(Run(t, StepCalls(EntriesSteps(num, log)), dist)) == Tally(Run(s, log, dist))
    decreases |log|
  {
    if |log| > 0 {
      var init, c := log[..|log| - 1], log[|log| - 1];
      assert log == init + [c];
      UnroundedPrefix(num.round3, log, |log| - 1);
      ReplayEntries(s, t, num, init, dist);
      StepCallsAppend(EntriesSteps(num, init), EntrySteps(num, c));
      RunAppend(t, StepCalls(EntriesSteps(num, init)), StepCalls(EntrySteps(num, c)), dist);
      RunSnoc(s, init, c, dist);
      ReplayEntry(Run(s, log[..|log| - 1], dist), Run(t, StepCalls(EntriesSteps(num, init)), dist),
                  num, c, dist);
    }
  }

  /** From a session with no position, a leading `lineto` and the move inserted for it tally alike. */
  lemma InsertedMoveTalliesAlike(s: Session, t: Session, x: real, y: real, dist: DistFn)
    requires Tally(s) == Tally(t) && s.pos.None?
    ensures Tally(Apply(t, MoveTo(x, y), dist)) == Tally(Apply(s, LineTo(x, y), dist))
  {
  }

  lemma UnroundedTail(round3: real -> real, log: seq<Call>)
    requires |log| > 0 && Unrounded(round3, log)
    ensures Unrounded(round3, log[1..])
  {
    forall i | 0 <= i < |log| - 1 && !log[1..][i].ColorChange?
      ensures round3(log[1..][i].x) == log[1..][i].x && round3(log[1..][i].y) == log[1..][i].y
    {
      assert log[1..][i] == log[i + 1];
    }
  }

  /** From a session with no position, the script's steps measure what running the log does. */
  lemma ReplayScriptSteps(s: Session, t: Session, num: Numerals, log: seq<Call>, dist: DistFn)
    requires Tally(s) == Tally(t) && s.pos.None? && Unrounded(num.round3, log)
    ensures Tally(Run(t, StepCalls(ScriptSteps(num, log)), dist)) == Tally(Run(s, log, dist))
  {
    if |log| > 0 && log[0].LineTo? {
      var x, y := log[0].x, log[0].y;
      var first := Moved(num.round3(x), num.round3(y));
      var rest := EntriesSteps(num, log[1..]);
      assert num.round3(x) == x && num.round3(y) == y;
      StepCallsAppend([first], rest);
      assert StepCalls([first]) == [MoveTo(x, y)] by {
        assert [first][..0] == [];
      }
      assert ([MoveTo(x, y)] + StepCalls(rest))[1..] == StepCalls(rest);
      InsertedMoveTalliesAlike(s, t, x, y, dist);
      UnroundedTail(num.round3, log);
      ReplayEntries(Apply(s, log[0], dist), Apply(t, MoveTo(x, y), dist), num, log[1..], dist);
    } else {
      ReplayEntries(s, t, num, log, dist);
    }
  }

  /**
   * Replaying a written script on a fresh plotter measures the same travel and
   * drawn length, and ends at the same place, as the run that recorded it, when
   * rounding to three places changes no recorded coordinate.
   */
  lemma ReplayReproducesRun(page: Page, calls: seq<Call>, num: Numerals, dist: DistFn)
    requires ZeroOnSame(dist)
    requires Unrounded(num.round3, Run(NewSession(page), calls, dist).log)
    ensures var start := NewSession(page);
            var steps := ScriptSteps(num, Run(start, calls, dist).log);
            Tally(Run(start, StepCalls(steps), dist)) == Tally(Run(start, calls, dist))
  {
    var start := NewSession(page);
    var log := Run(start, calls, dist).log;
    RunLogs(start, calls, dist);
    assert log == Expand(calls);
    ReplayScriptSteps(start, start, num, log, dist);
    RerunLog(start, start, calls, dist);
  }
}
