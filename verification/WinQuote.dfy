/**
 * The Windows command-line quoter against the Microsoft C runtime's rules for splitting a
 * command line into arguments.
 */
module WinQuote {
  predicate IsBlank(c: char) { c == ' ' || c == '\t' }

  predicate NeedsQuotes(arg: string) {
    arg == "" || exists i :: 0 <= i < |arg| && (IsBlank(arg[i]) || arg[i] == '"')
  }

  function Backslashes(n: nat): (s: string)
    ensures |s| == n
  {
    seq(n, i => '\\')
  }

  /** The text between the quotes, when `bs` backslashes are still held back. */
  function Escaped(arg: string, bs: nat): string {
    if arg == "" then Backslashes(2 * bs)
    else if arg[0] == '\\' then Escaped(arg[1..], bs + 1)
    else if arg[0] == '"' then Backslashes(2 * bs + 1) + ['"'] + Escaped(arg[1..], 0)
    else Backslashes(bs) + [arg[0]] + Escaped(arg[1..], 0)
  }

  function Quoted(arg: string): (s: string)
    ensures s != ""
  {
    if NeedsQuotes(arg) then ['"'] + Escaped(arg, 0) + ['"'] else arg
  }

  /** What one call appends to a line that already has `pos` characters. */
  function Appended(pos: nat, arg: string): string {
    (if pos > 0 then " " else "") + Quoted(arg)
  }

  function CommandLine(args: seq<string>): (line: string)
    ensures line == "" <==> args == []
  {
    if args == [] then ""
    else var line := CommandLine(args[..|args| - 1]); line + Appended(|line|, args[|args| - 1])
  }

  lemma {:induction false} EscapedGrows(arg: string, bs: nat)
    ensures |Escaped(arg, bs)| >= |arg| + bs
  {
    if arg != "" {
      EscapedGrows(arg[1..], if arg[0] == '\\' then bs + 1 else 0);
    }
  }

  /** An argument is left as it is exactly when it is not empty and holds no space, tab or quote. */
  lemma PlainStaysPlain(arg: string)
    ensures Quoted(arg) == arg <==> arg != "" && ' ' !in arg && '\t' !in arg && '"' !in arg
  {
    EscapedGrows(arg, 0);
    if NeedsQuotes(arg) {
      assert |Quoted(arg)| > |arg|;
    }
  }

  /** Backslashes before a quote and at the end are doubled, others are not, and the quote is escaped. */
  lemma QuotedExample()
    ensures Quoted("\\ \\\"\\") == "\"\\ \\\\\\\"\\\\\""
  {
    assert IsBlank("\\ \\\"\\"[1]);
    assert Escaped("\\", 0) == "\\\\" by { assert "\\"[1..] == ""; }
    assert Escaped("\"\\", 1) == "\\\\\\\"\\\\" by { assert "\"\\"[1..] == "\\"; }
    assert Escaped("\\\"\\", 0) == "\\\\\\\"\\\\" by { assert "\\\"\\"[1..] == "\"\\"; }
    assert Escaped(" \\\"\\", 1) == "\\ \\\\\\\"\\\\" by { assert " \\\"\\"[1..] == "\\\"\\"; }
    assert Escaped("\\ \\\"\\", 0) == "\\ \\\\\\\"\\\\" by { assert "\\ \\\"\\"[1..] == " \\\"\\"; }
    hide Escaped;
  }

  // ---------- the runtime's argument splitter ----------

  /** Between arguments, or inside one with `bs` backslashes read but not yet interpreted. */
  datatype Scan = Between | Inside(text: string, quoted: bool, bs: nat)

  /**
   * Backslashes are literal unless they precede a double quote: 2n of them and a quote give n
   * backslashes and a delimiter, 2n+1 give n backslashes and a literal quote. A doubled quote
   * inside quotes is a literal quote. Blanks outside quotes separate arguments.
   */
  function Split(line: string, st: Scan): seq<string>
    decreases |line|, st.Between?
  {
    if line == "" then
      if st.Between? then [] else [st.text + Backslashes(st.bs)]
    else if st.Between? then
      if IsBlank(line[0]) then Split(line[1..], Between) else Split(line, Inside("", false, 0))
    else if line[0] == '\\' then
      Split(line[1..], st.(bs := st.bs + 1))
    else if line[0] == '"' then
      var text := st.text + Backslashes(st.bs / 2);
      if st.bs % 2 == 1 then Split(line[1..], Inside(text + ['"'], st.quoted, 0))
      else if st.quoted && |line| > 1 && line[1] == '"' then Split(line[2..], Inside(text + ['"'], true, 0))
      else Split(line[1..], Inside(text, !st.quoted, 0))
    else if IsBlank(line[0]) && !st.quoted then
      [st.text + Backslashes(st.bs)] + Split(line[1..], Between)
    else
      Split(line[1..], Inside(st.text + Backslashes(st.bs) + [line[0]], st.quoted, 0))
  }

  lemma {:induction false} SplitBackslashes(n: nat, rest: string, text: string, quoted: bool, bs: nat)
    ensures Split(Backslashes(n) + rest, Inside(text, quoted, bs)) == Split(rest, Inside(text, quoted, bs + n))
  {
    if n == 0 {
      assert Backslashes(0) + rest == rest;
    } else {
      assert (Backslashes(n) + rest)[1..] == Backslashes(n - 1) + rest;
      SplitBackslashes(n - 1, rest, text, quoted, bs + 1);
    }
  }

  /** A rest of line that cannot run into the argument before it. */
  predicate Detached(rest: string) { rest == "" || rest[0] == ' ' }

  /** A held-back run of `bs` backslashes and the character after it, read back inside quotes. */
  lemma SplitCharacter(c: char, bs: nat, tail: string, text: string)
    requires c != '\\'
    ensures Split(Backslashes(if c == '"' then 2 * bs + 1 else bs) + ([c] + tail), Inside(text, true, 0))
         == Split(tail, Inside(text + Backslashes(bs) + [c], true, 0))
  {
    SplitBackslashes(if c == '"' then 2 * bs + 1 else bs, [c] + tail, text, true, 0);
    assert ([c] + tail)[1..] == tail;
  }

  /** A doubled run of backslashes in front of the closing quote. */
  lemma SplitClosing(bs: nat, rest: string, text: string)
    requires Detached(rest)
    ensures Split(Backslashes(2 * bs) + (['"'] + rest), Inside(text, true, 0))
         == Split(rest, Inside(text + Backslashes(bs), false, 0))
  {
    SplitBackslashes(2 * bs, ['"'] + rest, text, true, 0);
    assert (['"'] + rest)[1..] == rest;
  }

  /** Reading the escaped text and its closing quote gives the argument back. */
  lemma {:induction false} SplitEscaped(arg: string, bs: nat, rest: string, text: string)
    requires Detached(rest)
    ensures Split(Escaped(arg, bs) + ['"'] + rest, Inside(text, true, 0))
         == Split(rest, Inside(text + Backslashes(bs) + arg, false, 0))
    decreases |arg|
  {
    hide Split;
    var line := Escaped(arg, bs) + ['"'] + rest;
    if arg == "" {
      assert line == Backslashes(2 * bs) + (['"'] + rest);
      SplitClosing(bs, rest, text);
      assert text + Backslashes(bs) + arg == text + Backslashes(bs);
    } else if arg[0] == '\\' {
      SplitEscaped(arg[1..], bs + 1, rest, text);
      assert Backslashes(bs + 1) + arg[1..] == Backslashes(bs) + arg;
      assert text + Backslashes(bs + 1) + arg[1..] == text + Backslashes(bs) + arg;
    } else {
      var tail := Escaped(arg[1..], 0) + ['"'] + rest;
      var k := if arg[0] == '"' then 2 * bs + 1 else bs;
      assert line == Backslashes(k) + ([arg[0]] + tail);
      SplitCharacter(arg[0], bs, tail, text);
      var text' := text + Backslashes(bs) + [arg[0]];
      SplitEscaped(arg[1..], 0, rest, text');
      assert text' + Backslashes(0) + arg[1..] == text + Backslashes(bs) + arg;
    }
  }

  /** Text without blanks or quotes is read literally, whatever its backslashes. */
  lemma {:induction false} SplitPlain(arg: string, rest: string, text: string, bs: nat)
    requires Detached(rest)
    requires forall i :: 0 <= i < |arg| ==> !IsBlank(arg[i]) && arg[i] != '"'
    ensures Split(arg + rest, Inside(text, false, bs)) == [text + Backslashes(bs) + arg] + Split(rest, Between)
    decreases |arg|
  {
    if arg == "" {
      assert arg + rest == rest;
      assert text + Backslashes(bs) + arg == text + Backslashes(bs);
    } else {
      assert (arg + rest)[1..] == arg[1..] + rest;
      if arg[0] == '\\' {
        SplitPlain(arg[1..], rest, text, bs + 1);
        assert Backslashes(bs + 1) + arg[1..] == Backslashes(bs) + arg;
        assert text + Backslashes(bs + 1) + arg[1..] == text + Backslashes(bs) + arg;
      } else {
        var text' := text + Backslashes(bs) + [arg[0]];
        SplitPlain(arg[1..], rest, text', 0);
        assert text' + Backslashes(0) + arg[1..] == text + Backslashes(bs) + arg;
      }
    }
  }

  /** One quoted argument in front of the rest of a line is split off as itself. */
  lemma SplitQuoted(arg: string, rest: string)
    requires Detached(rest)
    ensures Split(Quoted(arg) + rest, Between) == [arg] + Split(rest, Between)
  {
    hide Escaped;
    var line := Quoted(arg) + rest;
    if NeedsQuotes(arg) {
      var tail := Escaped(arg, 0) + ['"'] + rest;
      assert line == ['"'] + tail;
      assert Split(line, Between) == Split(line, Inside("", false, 0)) == Split(tail, Inside("", true, 0)) by {
        assert line[1..] == tail;
        assert "" + Backslashes(0) == "";
      }
      SplitEscaped(arg, 0, rest, "");
      assert "" + Backslashes(0) + arg == arg;
      assert arg + Backslashes(0) == arg;
    } else {
      SplitPlain(arg, rest, "", 0);
      assert "" + Backslashes(0) + arg == arg;
    }
  }

  lemma SplitBlank(tail: string)
    ensures Split([' '] + tail, Between) == Split(tail, Between)
  {
    assert ([' '] + tail)[1..] == tail;
  }

  /** The whole line followed by a further line of arguments splits into both lists. */
  lemma {:induction false} SplitLine(args: seq<string>, rest: string)
    requires Detached(rest)
    ensures Split(CommandLine(args) + rest, Between) == args + Split(rest, Between)
    decreases |args|
  {
    hide Split, Quoted;
    if args == [] {
      assert CommandLine(args) + rest == rest;
    } else {
      var n := |args| - 1;
      var line, arg := CommandLine(args[..n]), args[n];
      var tail := Quoted(arg) + rest;
      SplitQuoted(arg, rest);
      assert args == args[..n] + [arg];
      if line == "" {
        assert CommandLine(args) + rest == tail;
      } else {
        assert CommandLine(args) + rest == line + ([' '] + tail);
        SplitLine(args[..n], [' '] + tail);
        SplitBlank(tail);
      }
    }
  }

  /**
   * Round trip: by the rules for the arguments after the program name, the built line splits into
   * exactly its list, for all strings, empty ones, embedded quotes and trailing backslashes included.
   */
  lemma RoundTrip(args: seq<string>)
    ensures Split(CommandLine(args), Between) == args
  {
    SplitLine(args, "");
    assert CommandLine(args) + "" == CommandLine(args);
  }

  /** Hence two different argument lists never share a command line. */
  lemma LinesAreDistinct(a: seq<string>, b: seq<string>)
    requires CommandLine(a) == CommandLine(b)
    ensures a == b
  {
    RoundTrip(a);
    RoundTrip(b);
  }

  // ---------- the program name ----------

  /**
   * The runtime reads the program name, a path, by its own rule: quotes toggle and vanish,
   * backslashes are literal, and the first blank outside quotes ends it. What follows is the rest.
   */
  function ReadName(line: string, quoted: bool): (r: (string, string))
    ensures '"' !in r.0
    ensures line != "" && line[0] != '"' && (quoted || !IsBlank(line[0])) ==> r.0 != ""
  {
    if line == "" then ("", "")
    else if line[0] == '"' then ReadName(line[1..], !quoted)
    else if IsBlank(line[0]) && !quoted then ("", line)
    else var (name, rest) := ReadName(line[1..], quoted); ([line[0]] + name, rest)
  }

  /** What the started program finds: its name, and then its arguments. */
  function ReadLine(line: string): seq<string> {
    var (name, rest) := ReadName(line, false);
    [name] + Split(rest, Between)
  }

  predicate EndsInBackslash(s: string) { s != "" && s[|s| - 1] == '\\' }

  /** A program name the quoter can carry. */
  predicate NameSurvives(name: string) {
    '"' !in name && !(NeedsQuotes(name) && EndsInBackslash(name))
  }

  lemma {:induction false} NamePlain(name: string, rest: string)
    requires Detached(rest)
    requires forall i :: 0 <= i < |name| ==> !IsBlank(name[i]) && name[i] != '"'
    ensures ReadName(name + rest, false) == (name, rest)
  {
    if name == "" {
      assert name + rest == rest;
    } else {
      assert (name + rest)[1..] == name[1..] + rest;
      NamePlain(name[1..], rest);
      assert [name[0]] + name[1..] == name;
    }
  }

  lemma {:induction false} NameQuoted(name: string, rest: string)
    requires Detached(rest) && '"' !in name
    ensures ReadName(name + ['"'] + rest, true) == (name, rest)
  {
    var line := name + ['"'] + rest;
    if name == "" {
      assert line[1..] == rest;
      NamePlain("", rest);
      assert "" + rest == rest;
    } else {
      assert line[1..] == name[1..] + ['"'] + rest;
      NameQuoted(name[1..], rest);
      assert [name[0]] + name[1..] == name;
    }
  }

  lemma SameAfter(head: string, a: string, b: string)
    ensures head + a == head + b <==> a == b
  {
    assert (head + a)[|head|..] == a && (head + b)[|head|..] == b;
  }

  /** Text without quotes is escaped to itself unless it ends in a backslash. */
  lemma {:induction false} EscapedPlain(arg: string, bs: nat)
    requires '"' !in arg
    ensures '"' !in Escaped(arg, bs)
    ensures Escaped(arg, bs) == Backslashes(bs) + arg <==> !(EndsInBackslash(arg) || (arg == "" && bs > 0))
  {
    if arg == "" {
      assert Backslashes(bs) + arg == Backslashes(bs);
      assert bs > 0 ==> |Backslashes(2 * bs)| != |Backslashes(bs)|;
    } else if arg[0] == '\\' {
      EscapedPlain(arg[1..], bs + 1);
      assert Backslashes(bs + 1) + arg[1..] == Backslashes(bs) + arg;
    } else {
      EscapedPlain(arg[1..], 0);
      assert Backslashes(0) + arg[1..] == arg[1..];
      var head := Backslashes(bs) + [arg[0]];
      assert Backslashes(bs) + arg == head + arg[1..];
      SameAfter(head, Escaped(arg[1..], 0), arg[1..]);
    }
  }

  /** Escaped text starts with a character of the name, whatever it is. */
  lemma {:induction false} EscapedStarts(arg: string, bs: nat)
    requires arg != "" || bs > 0
    ensures Escaped(arg, bs) != "" && Escaped(arg, bs)[0] != '"'
  {
    if arg != "" && arg[0] == '\\' {
      EscapedStarts(arg[1..], bs + 1);
    }
  }

  /** One quoted name in front of the rest of a line: what is read for it. */
  lemma NameRead(name: string, rest: string)
    requires Detached(rest)
    ensures var read := ReadName(Quoted(name) + rest, false);
            && (read.0 == name <==> NameSurvives(name))
            && (NameSurvives(name) ==> read.1 == rest)
            && (name != "" ==> read.0 != "")
  {
    hide Escaped;
    if NeedsQuotes(name) {
      var tail := Escaped(name, 0) + ['"'] + rest;
      assert Quoted(name) + rest == ['"'] + tail;
      assert (['"'] + tail)[1..] == tail;
      if name != "" { EscapedStarts(name, 0); }
      if '"' !in name {
        EscapedPlain(name, 0);
        assert Backslashes(0) + name == name;
        NameQuoted(Escaped(name, 0), rest);
      }
    } else {
      NamePlain(name, rest);
    }
  }

  /** The line of a program and its arguments, seen from the front. */
  lemma {:induction false} LineFromFront(args: seq<string>)
    requires |args| > 1
    ensures CommandLine(args) == Quoted(args[0]) + ([' '] + CommandLine(args[1..]))
    decreases |args|
  {
    var n := |args| - 1;
    hide Quoted;
    if n == 1 {
      assert args[..1][..0] == [] && args[1..][..0] == [];
      assert CommandLine(args[..1]) == Quoted(args[0]);
    } else {
      LineFromFront(args[..n]);
      assert args[..n][1..] == args[1..][..n - 1];
    }
  }

  /** What stands behind the program name: nothing, or a blank and the line of the arguments. */
  function AfterName(args: seq<string>): (rest: string)
    requires args != []
    ensures Detached(rest)
  {
    if |args| == 1 then "" else [' '] + CommandLine(args[1..])
  }

  lemma LineOfName(args: seq<string>)
    requires args != []
    ensures CommandLine(args) == Quoted(args[0]) + AfterName(args)
    ensures Split(AfterName(args), Between) == args[1..]
  {
    hide Quoted;
    if |args| == 1 {
      assert args[..0] == [];
    } else {
      LineFromFront(args);
      SplitBlank(CommandLine(args[1..]));
      RoundTrip(args[1..]);
    }
  }

  /** Reading the built line: which list comes back, and what happens to the name. */
  lemma LineRead(args: seq<string>)
    requires args != []
    ensures var read := ReadLine(CommandLine(args));
            && (read[0] == args[0] <==> NameSurvives(args[0]))
            && (NameSurvives(args[0]) ==> read == args)
            && (args[0] != "" ==> read[0] != "")
  {
    hide CommandLine, Quoted, Split, ReadName, NameSurvives, AfterName;
    LineOfName(args);
    NameRead(args[0], AfterName(args));
    assert args == [args[0]] + args[1..];
  }

  /**
   * A program and its arguments survive exactly when the program name holds no quote and does not
   * both need quoting and end in a backslash. The other arguments are arbitrary.
   */
  lemma ProgramRoundTrip(args: seq<string>)
    requires args != []
    ensures ReadLine(CommandLine(args)) == args <==> NameSurvives(args[0])
  {
    LineRead(args);
  }

  /** Outside it: a directory name with a blank and a trailing backslash gains a second backslash. */
  lemma NameGainsBackslash()
    ensures ReadLine(CommandLine([" \\"])) == [" \\\\"]
  {
    var name := " \\";
    assert IsBlank(name[0]);
    assert Escaped(name[1..], 0) == Escaped("", 1) by { assert name[1..][1..] == ""; }
    assert Escaped(name, 0) == " \\\\";
    LineOfName([name]);
    NameQuoted(" \\\\", "");
    assert (['"'] + (" \\\\" + ['"'] + ""))[1..] == " \\\\" + ['"'] + "";
    assert CommandLine([name]) == ['"'] + (" \\\\" + ['"'] + "");
  }

  // ---------- the quoter ----------

  /** The line so far and what is still to be written make up `line`. */
  ghost predicate Pending(buf: seq<char>, pos: int, todo: string, line: string) {
    0 <= pos <= |buf| && buf[..pos] + todo == line
  }

  /** Nothing before `pos` or from `cap` on has been written. */
  ghost predicate Kept(before: seq<char>, after: seq<char>, pos: int, cap: int) {
    && |before| == |after|
    && forall k :: 0 <= k < |before| && (k < pos || cap <= k) ==> after[k] == before[k]
  }

  lemma Written(before: seq<char>, pos: int, todo: string, line: string)
    requires Pending(before, pos, todo, line) && pos < |before| && todo != ""
    ensures Pending(before[pos := todo[0]], pos + 1, todo[1..], line)
  {
  }

  /** Writes one character unless that would leave no room for the terminator. */
  method Put(out: array<char>, cap: int, pos: nat, c: char, ghost rest: string, ghost line: string)
    returns (end: int)
    requires cap <= out.Length && Pending(out[..], pos, [c] + rest, line)
    modifies out
    ensures end == if pos < cap - 1 then pos + 1 else -1
    ensures end == -1 ==> |line| > cap - 1
    ensures end != -1 ==> Pending(out[..], end, rest, line)
    ensures Kept(old(out[..]), out[..], pos, cap)
  {
    if pos >= cap - 1 { return -1; }
    Written(out[..], pos, [c] + rest, line);
    ghost var before := out[..];
    out[pos] := c;
    assert out[..] == before[pos := c];
    assert ([c] + rest)[1..] == rest;
    end := pos + 1;
  }

  /** Keeping is reflexive, and two writes one behind the other keep what is outside both. */
  lemma KeptSteps(a: seq<char>, b: seq<char>, c: seq<char>, pos: int, pos': int, cap: int)
    requires pos <= pos'
    ensures Kept(a, a, pos, cap)
    ensures Kept(a, b, pos, cap) && Kept(b, c, pos', cap) ==> Kept(a, c, pos, cap)
  {
  }

  lemma NoBackslash(rest: string)
    ensures Backslashes(0) + rest == rest
  {
  }

  lemma BackslashFirst(n: nat, rest: string)
    requires n > 0
    ensures Backslashes(n) + rest == ['\\'] + (Backslashes(n - 1) + rest)
  {
  }

  method PutBackslashes(out: array<char>, cap: int, pos: nat, n: nat, ghost rest: string, ghost line: string)
    returns (end: int)
    requires cap <= out.Length && Pending(out[..], pos, Backslashes(n) + rest, line)
    modifies out
    ensures end == if n == 0 || pos + n <= cap - 1 then pos + n else -1
    ensures end == -1 ==> |line| > cap - 1
    ensures end != -1 ==> Pending(out[..], end, rest, line)
    ensures Kept(old(out[..]), out[..], pos, cap)
  {
    hide Backslashes, Pending, Kept;
    end := pos;
    NoBackslash(rest);
    KeptSteps(out[..], out[..], out[..], pos, pos, cap);
    for i := 0 to n
      invariant end == pos + i && (i > 0 ==> end <= cap - 1)
      invariant Pending(out[..], end, Backslashes(n - i) + rest, line)
      invariant Kept(old(out[..]), out[..], pos, cap)
    {
      BackslashFirst(n - i, rest);
      ghost var before := out[..];
      end := Put(out, cap, end, '\\', Backslashes(n - i - 1) + rest, line);
      KeptSteps(old(out[..]), before, out[..], pos, pos + i, cap);
      if end < 0 { return; }
    }
  }

  method PutPlain(out: array<char>, cap: int, pos: nat, arg: string) returns (end: int)
    requires cap <= out.Length && pos <= out.Length && arg != ""
    modifies out
    ensures end == if pos + |arg| <= cap - 1 then pos + |arg| else -1
    ensures end != -1 ==> out[..end] == old(out[..])[..pos] + arg && out[end] == '\0'
    ensures Kept(old(out[..]), out[..], pos, cap)
  {
    ghost var line := out[..pos] + arg;
    end := pos;
    for i := 0 to |arg|
      invariant end == pos + i && (i > 0 ==> end <= cap - 1)
      invariant Pending(out[..], end, arg[i..], line)
      invariant Kept(old(out[..]), out[..], pos, cap)
    {
      assert arg[i..] == [arg[i]] + arg[i + 1..];
      end := Put(out, cap, end, arg[i], arg[i + 1..], line);
      if end < 0 { return; }
    }
    assert out[..end] == line;
    out[end] := '\0';
  }

  method PutQuoted(out: array<char>, cap: int, pos: nat, arg: string) returns (end: int)
    requires cap <= out.Length && pos <= out.Length
    modifies out
    ensures var n := pos + |Escaped(arg, 0)| + 2; end == if n <= cap - 1 then n else -1
    ensures end != -1 ==> out[..end] == old(out[..])[..pos] + ['"'] + Escaped(arg, 0) + ['"'] && out[end] == '\0'
    ensures Kept(old(out[..]), out[..], pos, cap)
  {
    hide Escaped;
    ghost var line := out[..pos] + ['"'] + Escaped(arg, 0) + ['"'];
    assert line == out[..pos] + (['"'] + (Escaped(arg, 0) + ['"']));
    end := Put(out, cap, pos, '"', Escaped(arg, 0) + ['"'], line);
    if end < 0 { return; }
    var bs := 0;
    for i := 0 to |arg|
      invariant pos < end && Pending(out[..], end, Escaped(arg[i..], bs) + ['"'], line)
      invariant Kept(old(out[..]), out[..], pos, cap)
    {
      EscapedStep(arg[i..], bs);
      assert arg[i..][1..] == arg[i + 1..];
      if arg[i] == '\\' {
        bs := bs + 1;
        continue;
      }
      ghost var rest := Escaped(arg[i + 1..], 0) + ['"'];
      end := PutBackslashes(out, cap, end, if arg[i] == '"' then 2 * bs + 1 else bs, [arg[i]] + rest, line);
      if end < 0 { return; }
      end := Put(out, cap, end, arg[i], rest, line);
      if end < 0 { return; }
      bs := 0;
    }
    EscapedEnd(bs);
    end := PutClosing(out, cap, end, bs, line);
  }

  /** The held-back backslashes, doubled, the closing quote and the terminator. */
  method PutClosing(out: array<char>, cap: int, pos: nat, held: nat, ghost line: string) returns (end: int)
    requires cap <= out.Length && Pending(out[..], pos, Backslashes(2 * held) + ['"'], line)
    modifies out
    ensures end == if |line| <= cap - 1 then |line| else -1
    ensures end != -1 ==> out[..end] == line && out[end] == '\0'
    ensures Kept(old(out[..]), out[..], pos, cap)
  {
    end := pos;
    var bs := held;
    while bs > 0
      invariant pos <= end && Pending(out[..], end, Backslashes(2 * bs) + ['"'], line)
      invariant Kept(old(out[..]), out[..], pos, cap)
    {
      if end >= cap - 2 { return -1; }
      ghost var rest := Backslashes(2 * bs - 2) + ['"'];
      assert Backslashes(2 * bs) + ['"'] == ['\\'] + (['\\'] + rest);
      end := Put(out, cap, end, '\\', ['\\'] + rest, line);
      end := Put(out, cap, end, '\\', rest, line);
      bs := bs - 1;
    }
    assert Backslashes(0) + ['"'] == ['"'] + "";
    end := Put(out, cap, end, '"', "", line);
    if end < 0 { return; }
    assert out[..end] == line;
    out[end] := '\0';
  }

  lemma EmptyNeedsQuotes()
    ensures NeedsQuotes("")
  {
  }

  /** Looks for a blank or a quote; an empty argument needs quotes too. */
  method MustQuote(arg: string) returns (need: bool)
    ensures need == NeedsQuotes(arg)
  {
    need := arg == "";
    for q := 0 to |arg|
      invariant forall i :: 0 <= i < q ==> !IsBlank(arg[i]) && arg[i] != '"'
    {
      if IsBlank(arg[q]) || arg[q] == '"' { return true; }
    }
  }

  /**
   * Appends one argument to the line at `pos`; -1 exactly when the line and its terminator do not
   * fit. Nothing before `pos` or from `cap` on is written either way.
   */
  method QuoteArg(out: array<char>, cap: int, pos: nat, arg: string) returns (end: int)
    requires cap <= out.Length && pos <= out.Length
    modifies out
    ensures var n := pos + |Appended(pos, arg)|; end == if n <= cap - 1 then n else -1
    ensures end != -1 ==> out[..end] == old(out[..])[..pos] + Appended(pos, arg) && out[end] == '\0'
    ensures Kept(old(out[..]), out[..], pos, cap)
  {
    hide Escaped, NeedsQuotes;
    end := pos;
    if pos > 0 {
      end := Put(out, cap, pos, ' ', "", out[..pos] + [' ']);
      if end < 0 { return; }
      assert out[..end] == old(out[..])[..pos] + " ";
    }
    var need := MustQuote(arg);
    if need {
      end := PutQuoted(out, cap, end, arg);
    } else {
      assert arg != "" by { EmptyNeedsQuotes(); }
      end := PutPlain(out, cap, end, arg);
    }
  }

  // ---------- the argument blob ----------

  /** The characters before the first NUL. */
  function Entry(s: string): (e: string)
    ensures |e| <= |s| && e == s[..|e|]
    ensures forall i :: 0 <= i < |e| ==> e[i] != '\0'
    ensures |e| < |s| ==> s[|e|] == '\0'
  {
    if s == "" || s[0] == '\0' then "" else [s[0]] + Entry(s[1..])
  }

  /** An empty entry ends the blob somewhere inside the memory. */
  predicate Terminated(blob: string): (r: bool)
    ensures r ==> blob != ""
    decreases |blob|
  {
    && blob != ""
    && (blob[0] == '\0' || (|Entry(blob)| < |blob| && Terminated(blob[|Entry(blob)| + 1..])))
  }

  function Entries(blob: string): (args: seq<string>)
    requires Terminated(blob)
    decreases |blob|
  {
    if blob[0] == '\0' then [] else [Entry(blob)] + Entries(blob[|Entry(blob)| + 1..])
  }

  /** The arguments of a spawned program: the blob's, or the file name when there are none. */
  function SpawnArgs(file: string, blob: string): seq<string>
    requires Terminated(blob)
  {
    if Entries(blob) == [] then [file] else Entries(blob)
  }

  /** Builds a program's command line from a NUL-separated argument blob. */
  method BuildLine(out: array<char>, cap: int, file: string, blob: string) returns (end: int)
    requires cap <= out.Length && Terminated(blob)
    modifies out
    ensures var n := |CommandLine(SpawnArgs(file, blob))|; end == if file != "" && n <= cap - 1 then n else -1
    ensures end != -1 ==> out[..end] == CommandLine(SpawnArgs(file, blob)) && out[end] == '\0'
    ensures Kept(old(out[..]), out[..], 0, cap)
  {
    hide Escaped, Quoted, CommandLine, Entries, Entry, Terminated;
    if file == "" { return -1; }
    end := 0;
    var p := 0;
    var first := true;
    ghost var done: seq<string> := [];
    assert blob[0..] == blob;
    while blob[p] != '\0'
      invariant p < |blob| && Terminated(blob[p..])
      invariant done + Entries(blob[p..]) == Entries(blob)
      invariant first == (done == [])
      invariant 0 <= end <= out.Length && out[..end] == CommandLine(done)
      invariant !first ==> end <= cap - 1 && out[end] == '\0'
      invariant Kept(old(out[..]), out[..], 0, cap)
      decreases |blob| - p
    {
      EntriesStep(blob[p..]);
      var entry := Entry(blob[p..]);
      assert blob[p..][|entry| + 1..] == blob[p + |entry| + 1..];
      LineStep(done, entry);
      end := QuoteArg(out, cap, end, entry);
      if end < 0 {
        assert (done + [entry]) + Entries(blob[p + |entry| + 1..]) == Entries(blob);
        LineGrows(done + [entry], Entries(blob[p + |entry| + 1..]));
        return;
      }
      done := done + [entry];
      p := p + |entry| + 1;
      first := false;
    }
    EntriesEnd(blob, p);
    assert Entries(blob) == done;
    if first {
      LineStep([], file);
      assert [] + [file] == [file];
      end := QuoteArg(out, cap, end, file);
    }
  }

  lemma LineStep(done: seq<string>, arg: string)
    ensures CommandLine(done + [arg]) == CommandLine(done) + Appended(|CommandLine(done)|, arg)
  {
    assert (done + [arg])[..|done|] == done;
  }

  lemma EntriesStep(blob: string)
    requires Terminated(blob) && blob[0] != '\0'
    ensures |Entry(blob)| + 1 < |blob|
    ensures Terminated(blob[|Entry(blob)| + 1..])
    ensures Entries(blob) == [Entry(blob)] + Entries(blob[|Entry(blob)| + 1..])
  {
  }

  lemma EntriesEnd(blob: string, p: nat)
    requires p < |blob| && Terminated(blob[p..]) && blob[p] == '\0'
    ensures Entries(blob[p..]) == []
  {
  }

  lemma {:induction false} LineGrows(args: seq<string>, more: seq<string>)
    ensures |CommandLine(args + more)| >= |CommandLine(args)|
  {
    if more == [] {
      assert args + more == args;
    } else {
      assert (args + more)[..|args + more| - 1] == args + more[..|more| - 1];
      LineGrows(args, more[..|more| - 1]);
    }
  }

  lemma EscapedStep(arg: string, bs: nat)
    requires arg != ""
    ensures arg[0] == '\\' ==> Escaped(arg, bs) == Escaped(arg[1..], bs + 1)
    ensures arg[0] != '\\' ==>
      Escaped(arg, bs) + ['"']
      == Backslashes(if arg[0] == '"' then 2 * bs + 1 else bs) + ([arg[0]] + (Escaped(arg[1..], 0) + ['"']))
  {
  }

  lemma EscapedEnd(bs: nat)
    ensures Escaped("", bs) == Backslashes(2 * bs)
  {
  }

  // ---------- what a blob can carry ----------

  function Blob(args: seq<string>): string {
    if args == [] then ['\0'] else args[0] + ['\0'] + Blob(args[1..])
  }

  predicate NulFree(args: seq<string>) {
    forall i :: 0 <= i < |args| ==> '\0' !in args[i]
  }

  lemma {:induction false} EntryOf(arg: string, rest: string)
    requires '\0' !in arg
    ensures Entry(arg + ['\0'] + rest) == arg
  {
    var s := arg + ['\0'] + rest;
    if arg != "" {
      assert s[1..] == arg[1..] + ['\0'] + rest;
      EntryOf(arg[1..], rest);
    }
  }

  /** An empty argument ends the list: the blob carries the arguments before the first one. */
  function Carried(args: seq<string>): (r: seq<string>)
    ensures r == args <==> "" !in args
  {
    if args == [] || args[0] == "" then [] else [args[0]] + Carried(args[1..])
  }

  lemma {:induction false} BlobEntries(args: seq<string>)
    requires NulFree(args)
    ensures Terminated(Blob(args)) && Entries(Blob(args)) == Carried(args)
  {
    if args != [] && args[0] != "" {
      var rest := Blob(args[1..]);
      EntryOf(args[0], rest);
      assert Blob(args)[|args[0]| + 1..] == rest;
      BlobEntries(args[1..]);
    }
  }

  /**
   * A spawned program is given the caller's list exactly when no argument is empty and the
   * program name survives.
   */
  lemma SpawnRoundTrip(file: string, args: seq<string>)
    requires NulFree(args) && args != [] && file != ""
    ensures Terminated(Blob(args))
    ensures ReadLine(CommandLine(SpawnArgs(file, Blob(args)))) == args <==> "" !in args && NameSurvives(args[0])
  {
    hide ReadLine, CommandLine, NameSurvives;
    BlobEntries(args);
    LineRead(SpawnArgs(file, Blob(args)));
  }

  /** An empty blob gives the program its own file name, and nothing else. */
  lemma EmptyBlobNamesFile(file: string)
    requires NameSurvives(file)
    ensures Terminated(Blob([])) && ReadLine(CommandLine(SpawnArgs(file, Blob([])))) == [file]
  {
    hide ReadLine, CommandLine, NameSurvives;
    LineRead([file]);
  }

  /** An empty argument cuts the list. */
  lemma EmptyArgumentCuts(file: string)
    requires file != ""
    ensures Terminated(Blob(["a", "", "b"]))
    ensures ReadLine(CommandLine(SpawnArgs(file, Blob(["a", "", "b"])))) == ["a"]
  {
    hide ReadLine, CommandLine;
    var args := ["a", "", "b"];
    BlobEntries(args);
    assert args[1..] == ["", "b"];
    assert Carried(args) == ["a"];
    LineRead(["a"]);
  }
}
