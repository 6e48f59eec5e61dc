/** Quoting arguments for a Windows command line, and how CommandLineToArgvW takes it apart. */
module CommandLine {
  function Slashes(n: nat): string {
    seq(n, _ => '\\')
  }

  predicate IsBlank(c: char) {
    c == ' ' || c == '\t'
  }

  predicate NeedsQuotes(arg: string) {
    arg == "" || exists i :: 0 <= i < |arg| && (IsBlank(arg[i]) || arg[i] == '"')
  }

  /** The text between the quotes, when `slashes` backslashes have been seen but not written. */
  function Escaped(arg: string, slashes: nat): string {
    if arg == "" then Slashes(2 * slashes)
    else if arg[0] == '\\' then Escaped(arg[1..], slashes + 1)
    else if arg[0] == '"' then Slashes(2 * slashes + 1) + "\"" + Escaped(arg[1..], 0)
    else Slashes(slashes) + [arg[0]] + Escaped(arg[1..], 0)
  }

  function Quoted(arg: string): string {
    if NeedsQuotes(arg) then "\"" + Escaped(arg, 0) + "\"" else arg
  }

  /** An argument is written as it is exactly when it is not empty and holds no space, tab or quote; any other
      stands between quotes. */
  lemma PlainStays(arg: string)
    ensures Quoted(arg) == arg <==> arg != "" && ' ' !in arg && '\t' !in arg && '"' !in arg
    ensures Quoted(arg) != arg ==> |Quoted(arg)| >= 2 && Quoted(arg)[0] == '"' && Quoted(arg)[|Quoted(arg)| - 1] == '"'
  {
    if NeedsQuotes(arg) {
      EscapedIsLonger(arg, 0);
      assert |Quoted(arg)| > |arg|;
    }
  }

  lemma {:induction false} EscapedIsLonger(arg: string, slashes: nat)
    ensures |Escaped(arg, slashes)| >= |arg| + slashes
    decreases |arg|
  {
    if arg != "" {
      EscapedIsLonger(arg[1..], if arg[0] == '\\' then slashes + 1 else 0);
    }
  }

  method QuoteArg(arg: string) returns (out: string)
    ensures out == Quoted(arg)
  {
    if arg != "" && !exists i :: 0 <= i < |arg| && (IsBlank(arg[i]) || arg[i] == '"') {
      return arg;
    }
    out := "\"";
    var backslashes: nat := 0;
    var k := 0;
    while k < |arg|
      invariant k <= |arg|
      invariant out + Escaped(arg[k..], backslashes) == "\"" + Escaped(arg, 0)
    {
      var ch := arg[k];
      assert arg[k..][1..] == arg[k + 1..];
      if ch == '\\' {
        backslashes := backslashes + 1;
      } else if ch == '"' {
        out := out + Slashes(backslashes * 2 + 1) + "\"";
        backslashes := 0;
      } else {
        out := out + Slashes(backslashes) + [ch];
        backslashes := 0;
      }
      k := k + 1;
    }
    out := out + Slashes(backslashes * 2) + "\"";
  }

  function Join(args: seq<string>): string {
    if args == [] then ""
    else if |args| == 1 then Quoted(args[0])
    else Quoted(args[0]) + " " + Join(args[1..])
  }

  // ---------------------------------------------------------------- the splitting rule

  /** What a pair of quotes inside quotes means; the documentation leaves it open, and library versions
      differ: the second quote opens again, or the pair stands for one quote, after which quoting ends
      or goes on. */
  datatype Pairs = Reopen | LiteralThenEnd | LiteralThenOn

  /** One argument, from inside it: what has been read of it, whether inside quotes, and how many
      backslashes stand directly before. Backslashes are literal unless a quote follows; then every two
      stand for one, and an odd one makes the quote literal. The result is the argument and the text
      behind the blank that ended it. */
  function Scan(s: string, inQuotes: bool, slashes: nat, current: string, pairs: Pairs): (string, string)
    decreases |s|
  {
    if s == "" then (current + Slashes(slashes), "")
    else if s[0] == '\\' then Scan(s[1..], inQuotes, slashes + 1, current, pairs)
    else if s[0] == '"' then
      var read := current + Slashes(slashes / 2);
      if slashes % 2 == 1 then Scan(s[1..], inQuotes, 0, read + "\"", pairs)
      else if inQuotes && pairs != Reopen && |s| > 1 && s[1] == '"' then
        Scan(s[2..], pairs == LiteralThenOn, 0, read + "\"", pairs)
      else Scan(s[1..], !inQuotes, 0, read, pairs)
    else if IsBlank(s[0]) && !inQuotes then (current + Slashes(slashes), s[1..])
    else Scan(s[1..], inQuotes, 0, current + Slashes(slashes) + [s[0]], pairs)
  }

  lemma {:induction false} ScanShrinks(s: string, inQuotes: bool, slashes: nat, current: string, pairs: Pairs)
    ensures |Scan(s, inQuotes, slashes, current, pairs).1| <= |s|
    ensures s != "" ==> |Scan(s, inQuotes, slashes, current, pairs).1| < |s|
    decreases |s|
  {
    if s == "" {
    } else if s[0] == '\\' {
      ScanShrinks(s[1..], inQuotes, slashes + 1, current, pairs);
    } else if s[0] == '"' {
      var read := current + Slashes(slashes / 2);
      if slashes % 2 == 1 {
        ScanShrinks(s[1..], inQuotes, 0, read + "\"", pairs);
      } else if inQuotes && pairs != Reopen && |s| > 1 && s[1] == '"' {
        ScanShrinks(s[2..], pairs == LiteralThenOn, 0, read + "\"", pairs);
      } else {
        ScanShrinks(s[1..], !inQuotes, 0, read, pairs);
      }
    } else if !(IsBlank(s[0]) && !inQuotes) {
      ScanShrinks(s[1..], inQuotes, 0, current + Slashes(slashes) + [s[0]], pairs);
    }
  }

  /** The arguments behind the program name. */
  function Split(s: string, pairs: Pairs): seq<string>
    decreases |s|
  {
    if s == "" then []
    else if IsBlank(s[0]) then Split(s[1..], pairs)
    else
      ScanShrinks(s, false, 0, "", pairs);
      var (arg, rest) := Scan(s, false, 0, "", pairs);
      [arg] + Split(rest, pairs)
  }

  // ---------------------------------------------------------------- one argument

  /** What may follow an argument: nothing, or a blank. */
  predicate Ends(rest: string) {
    rest == "" || IsBlank(rest[0])
  }

  function Behind(rest: string): string {
    if rest == "" then "" else rest[1..]
  }

  lemma {:induction false} ScanSlashes(n: nat, s: string, inQuotes: bool, slashes: nat, current: string,
                                       pairs: Pairs)
    ensures Scan(Slashes(n) + s, inQuotes, slashes, current, pairs)
            == Scan(s, inQuotes, slashes + n, current, pairs)
  {
    if n == 0 {
      assert Slashes(0) + s == s;
    } else {
      assert (Slashes(n) + s)[1..] == Slashes(n - 1) + s;
      ScanSlashes(n - 1, s, inQuotes, slashes + 1, current, pairs);
    }
  }

  lemma ReadSlash(current: string, slashes: nat, arg: string)
    requires arg != "" && arg[0] == '\\'
    ensures current + Slashes(slashes + 1) + arg[1..] == current + Slashes(slashes) + arg
  {
    assert Slashes(slashes + 1) + arg[1..] == Slashes(slashes) + arg;
    assert current + Slashes(slashes + 1) + arg[1..] == current + (Slashes(slashes + 1) + arg[1..]);
    assert current + Slashes(slashes) + arg == current + (Slashes(slashes) + arg);
  }

  lemma ReadChar(current: string, slashes: nat, arg: string)
    requires arg != ""
    ensures current + Slashes(slashes) + [arg[0]] + Slashes(0) + arg[1..] == current + Slashes(slashes) + arg
  {
    assert arg == [arg[0]] + arg[1..];
  }

  /** Inside quotes, a character is read back with the backslashes that were written for it. */
  lemma ScanLiteral(c: char, next: string, slashes: nat, current: string, pairs: Pairs)
    requires c != '\\'
    ensures Scan([c] + next, true, if c == '"' then 2 * slashes + 1 else slashes, current, pairs)
            == Scan(next, true, 0, current + Slashes(slashes) + [c], pairs)
  {
    assert ([c] + next)[1..] == next;
  }

  lemma EscapedChar(arg: string, slashes: nat)
    requires arg != "" && arg[0] != '\\'
    ensures Escaped(arg, slashes)
            == Slashes(if arg[0] == '"' then 2 * slashes + 1 else slashes) + ([arg[0]] + Escaped(arg[1..], 0))
  {
  }

  /** Inside quotes, escaped text is read back, the closing quote is recognised, and nothing is left
      over. */
  lemma {:induction false} ScanEscaped(arg: string, slashes: nat, current: string, rest: string, pairs: Pairs)
    requires Ends(rest)
    ensures Scan(Escaped(arg, slashes) + ("\"" + rest), true, 0, current, pairs)
            == (current + Slashes(slashes) + arg, Behind(rest))
    decreases |arg|
  {
    var tail := "\"" + rest;
    if arg == "" {
      ScanSlashes(2 * slashes, tail, true, 0, current, pairs);
      assert tail[1..] == rest;
      assert Slashes(0) == "" && current + Slashes(slashes) + arg == current + Slashes(slashes);
    } else if arg[0] == '\\' {
      ScanEscaped(arg[1..], slashes + 1, current, rest, pairs);
      ReadSlash(current, slashes, arg);
    } else {
      var c := arg[0];
      var written := if c == '"' then 2 * slashes + 1 else slashes;
      var next := Escaped(arg[1..], 0) + tail;
      EscapedChar(arg, slashes);
      hide Escaped;
      hide Scan;
      assert Escaped(arg, slashes) + tail == Slashes(written) + ([c] + next);
      ScanSlashes(written, [c] + next, true, 0, current, pairs);
      ScanLiteral(c, next, slashes, current, pairs);
      var read := current + Slashes(slashes) + [c];
      ScanEscaped(arg[1..], 0, read, rest, pairs);
      ReadChar(current, slashes, arg);
    }
  }

  lemma {:induction false} ScanPlain(arg: string, slashes: nat, current: string, rest: string, pairs: Pairs)
    requires Ends(rest)
    requires forall i :: 0 <= i < |arg| ==> !IsBlank(arg[i]) && arg[i] != '"'
    ensures Scan(arg + rest, false, slashes, current, pairs)
            == (current + Slashes(slashes) + arg, Behind(rest))
    decreases |arg|
  {
    if arg == "" {
      assert arg + rest == rest;
      assert current + Slashes(slashes) + arg == current + Slashes(slashes);
    } else {
      assert (arg + rest)[1..] == arg[1..] + rest;
      if arg[0] == '\\' {
        ScanPlain(arg[1..], slashes + 1, current, rest, pairs);
        ReadSlash(current, slashes, arg);
      } else {
        var read := current + Slashes(slashes) + [arg[0]];
        ScanPlain(arg[1..], 0, read, rest, pairs);
        ReadChar(current, slashes, arg);
      }
    }
  }

  /** A quoted argument is read back as it was, whatever follows it. */
  lemma ScanQuoted(arg: string, rest: string, pairs: Pairs)
    requires Ends(rest)
    ensures Scan(Quoted(arg) + rest, false, 0, "", pairs) == (arg, Behind(rest))
  {
    assert "" + Slashes(0) + arg == arg;
    if NeedsQuotes(arg) {
      var inner := Escaped(arg, 0) + ("\"" + rest);
      assert Quoted(arg) + rest == "\"" + inner;
      assert ("\"" + inner)[1..] == inner;
      assert "" + Slashes(0) == "";
      ScanEscaped(arg, 0, "", rest, pairs);
    } else {
      ScanPlain(arg, 0, "", rest, pairs);
    }
  }

  // ---------------------------------------------------------------- all arguments

  lemma {:induction false} SplitJoin(args: seq<string>, pairs: Pairs)
    ensures Split(Join(args), pairs) == args
    decreases |args|
  {
    if args != [] {
      var rest := if |args| == 1 then "" else " " + Join(args[1..]);
      assert Join(args) == Quoted(args[0]) + rest;
      ScanQuoted(args[0], rest, pairs);
      SplitJoin(args[1..], pairs);
      assert Behind(rest) == Join(args[1..]);
      QuotedStart(args[0]);
      hide Quoted;
      hide Scan;
      assert args == [args[0]] + args[1..];
    }
  }

  lemma QuotedStart(arg: string)
    ensures Quoted(arg) != "" && !IsBlank(Quoted(arg)[0])
  {
  }

  // ---------------------------------------------------------------- the terminating NUL

  const NUL: char := '\0'

  /** The command line is handed over as a string that ends with the first NUL. */
  function UpToNul(s: string): string {
    if s == "" || s[0] == NUL then "" else [s[0]] + UpToNul(s[1..])
  }

  predicate NulFree(s: string) {
    NUL !in s
  }

  predicate AllNulFree(args: seq<string>) {
    forall i :: 0 <= i < |args| ==> NulFree(args[i])
  }

  lemma {:induction false} UpToNulIsAll(s: string)
    ensures NulFree(UpToNul(s))
    ensures NulFree(s) ==> UpToNul(s) == s
  {
    if s != "" && s[0] != NUL {
      UpToNulIsAll(s[1..]);
    }
  }

  lemma {:induction false} EscapedNulFree(arg: string, slashes: nat)
    requires NulFree(arg)
    ensures NulFree(Escaped(arg, slashes))
    decreases |arg|
  {
    if arg != "" {
      EscapedNulFree(arg[1..], if arg[0] == '\\' then slashes + 1 else 0);
    }
  }

  lemma {:induction false} JoinNulFree(args: seq<string>)
    requires AllNulFree(args)
    ensures NulFree(Join(args))
  {
    if args != [] {
      EscapedNulFree(args[0], 0);
      JoinNulFree(args[1..]);
    }
  }

  lemma {:induction false} ScanNulFree(s: string, inQuotes: bool, slashes: nat, current: string, pairs: Pairs)
    requires NulFree(s) && NulFree(current)
    ensures var (arg, rest) := Scan(s, inQuotes, slashes, current, pairs);
            NulFree(arg) && NulFree(rest)
    decreases |s|
  {
    if s == "" {
    } else if s[0] == '\\' {
      ScanNulFree(s[1..], inQuotes, slashes + 1, current, pairs);
    } else if s[0] == '"' {
      var read := current + Slashes(slashes / 2);
      if slashes % 2 == 1 {
        ScanNulFree(s[1..], inQuotes, 0, read + "\"", pairs);
      } else if inQuotes && pairs != Reopen && |s| > 1 && s[1] == '"' {
        ScanNulFree(s[2..], pairs == LiteralThenOn, 0, read + "\"", pairs);
      } else {
        ScanNulFree(s[1..], !inQuotes, 0, read, pairs);
      }
    } else if !(IsBlank(s[0]) && !inQuotes) {
      ScanNulFree(s[1..], inQuotes, 0, current + Slashes(slashes) + [s[0]], pairs);
    }
  }

  lemma {:induction false} SplitNulFree(s: string, pairs: Pairs)
    requires NulFree(s)
    ensures AllNulFree(Split(s, pairs))
    decreases |s|
  {
    if s == "" {
    } else if IsBlank(s[0]) {
      SplitNulFree(s[1..], pairs);
    } else {
      ScanShrinks(s, false, 0, "", pairs);
      ScanNulFree(s, false, 0, "", pairs);
      SplitNulFree(Scan(s, false, 0, "", pairs).1, pairs);
    }
  }

  /** The arguments arrive as they were given exactly when none of them contains a NUL, whatever runs
      of backslashes, quotes and blanks they contain. */
  lemma ArgumentsArrive(args: seq<string>, pairs: Pairs)
    ensures Split(UpToNul(Join(args)), pairs) == args <==> AllNulFree(args)
  {
    UpToNulIsAll(Join(args));
    SplitNulFree(UpToNul(Join(args)), pairs);
    if AllNulFree(args) {
      JoinNulFree(args);
      SplitJoin(args, pairs);
    }
  }

  // ---------------------------------------------------------------- the program name

  /** The length of the program name: it ends at the next quote when it begins with one, at a blank
      otherwise. Backslashes mean nothing here. */
  function NameEnd(s: string, stop: char -> bool): (n: nat)
    ensures n <= |s|
  {
    if s == "" || stop(s[0]) then 0 else 1 + NameEnd(s[1..], stop)
  }

  function ProgramAndRest(s: string): (string, string) {
    if s != "" && s[0] == '"' then
      var n := NameEnd(s[1..], c => c == '"');
      (s[1..][..n], Behind(s[1..][n..]))
    else
      var n := NameEnd(s, c => IsBlank(c));
      (s[..n], s[n..])
  }

  lemma {:induction false} NameEndAt(name: string, rest: string, stop: char -> bool)
    requires forall i :: 0 <= i < |name| ==> !stop(name[i])
    requires rest == "" || stop(rest[0])
    ensures NameEnd(name + rest, stop) == |name|
  {
    if name == "" {
      assert name + rest == rest;
    } else {
      assert (name + rest)[1..] == name[1..] + rest;
      NameEndAt(name[1..], rest, stop);
    }
  }

  predicate EndsInSlash(s: string) {
    s != "" && s[|s| - 1] == '\\'
  }

  /** Without quotes in it, escaping changes a text only where it ends in backslashes. */
  lemma {:induction false} EscapedName(arg: string, slashes: nat)
    requires '"' !in arg
    ensures '"' !in Escaped(arg, slashes)
    ensures if EndsInSlash(arg) || (arg == "" && slashes > 0) then |Escaped(arg, slashes)| > slashes + |arg|
            else Escaped(arg, slashes) == Slashes(slashes) + arg
    decreases |arg|
  {
    if arg != "" {
      var tail := arg[1..];
      assert EndsInSlash(arg) <==> EndsInSlash(tail) || (tail == "" && arg[0] == '\\');
      EscapedName(tail, if arg[0] == '\\' then slashes + 1 else 0);
      if arg[0] == '\\' {
        assert Slashes(slashes + 1) + tail == Slashes(slashes) + arg;
      } else {
        assert Slashes(slashes) + [arg[0]] + (Slashes(0) + tail) == Slashes(slashes) + arg;
      }
    }
  }

  /** What has to hold for a whole line to arrive: nothing contains a NUL, and the program name
      contains no quote and does not both need quotes and end in a backslash. */
  predicate Transmissible(command: string, args: seq<string>) {
    && NulFree(command) && AllNulFree(args)
    && '"' !in command && !(NeedsQuotes(command) && EndsInSlash(command))
  }

  /** The whole line, handed over as a string that ends with the first NUL, arrives, name and
      arguments, exactly then. */
  lemma LineArrives(command: string, args: seq<string>, pairs: Pairs)
    ensures var (program, rest) := ProgramAndRest(UpToNul(Join([command] + args)));
            (program == command && Split(rest, pairs) == args) <==> Transmissible(command, args)
  {
    var line := Join([command] + args);
    UpToNulIsAll(line);
    PartsNulFree(UpToNul(line));
    SplitNulFree(ProgramAndRest(UpToNul(line)).1, pairs);
    hide ProgramAndRest;
    hide Split;
    hide Join;
    if NulFree(command) && AllNulFree(args) {
      var all := [command] + args;
      assert forall i :: 0 <= i < |all| ==> all[i] == if i == 0 then command else args[i - 1];
      JoinNulFree(all);
      UncutLineArrives(command, args, pairs);
    }
  }

  lemma PartsNulFree(s: string)
    requires NulFree(s)
    ensures NulFree(ProgramAndRest(s).0) && NulFree(ProgramAndRest(s).1)
  {
  }

  lemma UncutLineArrives(command: string, args: seq<string>, pairs: Pairs)
    ensures var (program, rest) := ProgramAndRest(Join([command] + args));
            (program == command && Split(rest, pairs) == args)
            <==> '"' !in command && !(NeedsQuotes(command) && EndsInSlash(command))
  {
    if '"' in command {
      NameIsCut(command, args);
    } else {
      PlainLineArrives(command, args, pairs);
    }
  }

  /** The name read never contains a quote when it was read from a quoted one. */
  lemma NameIsCut(command: string, args: seq<string>)
    requires '"' in command
    ensures '"' !in ProgramAndRest(Join([command] + args)).0
  {
    var k :| 0 <= k < |command| && command[k] == '"';
    assert NeedsQuotes(command);
    assert ([command] + args)[0] == command;
    hide Escaped;
    var line := Join([command] + args);
    assert line[0] == '"';
    NameStops(line[1..], c => c == '"');
  }

  lemma {:induction false} NameStops(s: string, stop: char -> bool)
    ensures forall c :: c in s[..NameEnd(s, stop)] ==> !stop(c)
  {
    if s != "" && !stop(s[0]) {
      NameStops(s[1..], stop);
      var n := NameEnd(s[1..], stop);
      assert s[..1 + n] == [s[0]] + s[1..][..n];
    }
  }

  /** Behind a program name without quotes in it the arguments arrive unchanged, and so does the name
      itself, unless it is put in quotes and ends in a backslash. */
  lemma PlainLineArrives(command: string, args: seq<string>, pairs: Pairs)
    requires '"' !in command
    ensures var (program, rest) := ProgramAndRest(Join([command] + args));
            && Split(rest, pairs) == args
            && (program == command <==> !(NeedsQuotes(command) && EndsInSlash(command)))
  {
    hide Quoted;
    hide Scan;
    hide NeedsQuotes;
    hide Escaped;
    hide EndsInSlash;
    hide ProgramAndRest;
    var behind := if args == [] then "" else " " + Join(args);
    assert ([command] + args)[1..] == args;
    assert Join([command] + args) == Quoted(command) + behind;
    SplitJoin(args, pairs);
    assert behind != "" ==> behind[1..] == Join(args);
    assert Split(behind, pairs) == args;
    NameArrives(command, behind);
    NameKept(command);
  }

  lemma NameKept(command: string)
    requires '"' !in command
    ensures Escaped(command, 0) == command <==> !EndsInSlash(command)
  {
    EscapedName(command, 0);
    assert Slashes(0) + command == command;
    hide Escaped;
  }

  lemma NameArrives(command: string, behind: string)
    requires '"' !in command && (behind == "" || behind[0] == ' ')
    ensures var (program, rest) := ProgramAndRest(Quoted(command) + behind);
            && rest == behind
            && program == if NeedsQuotes(command) then Escaped(command, 0) else command
  {
    if NeedsQuotes(command) {
      EscapedName(command, 0);
      QuotedName(Escaped(command, 0), behind);
      assert Quoted(command) + behind == "\"" + Escaped(command, 0) + "\"" + behind;
    } else {
      NameEndAt(command, behind, c => IsBlank(c));
      assert (command + behind)[..|command|] == command && (command + behind)[|command|..] == behind;
    }
  }

  lemma QuotedName(name: string, behind: string)
    requires '"' !in name
    ensures ProgramAndRest("\"" + name + "\"" + behind) == (name, behind)
  {
    var line := "\"" + name + "\"" + behind;
    assert line[1..] == name + ("\"" + behind);
    NameEndAt(name, "\"" + behind, c => c == '"');
    assert line[1..][|name|..] == "\"" + behind;
    assert ("\"" + behind)[1..] == behind;
  }

  /** What a quote in the program name does to a line: the name ends there, and the arguments are read
      with quotes open. */
  lemma QuoteInName()
    ensures Quoted("a\"b") == "\"a\\\"b\""
    ensures ProgramAndRest("\"a\\\"b\" x") == ("a\\", "b\" x")
    ensures Split("b\" x", Reopen) == ["b x"]
  {
    QuotedQuote();
    QuotedName("a\\", "b\" x");
    assert "\"" + "a\\" + "\"" + "b\" x" == "\"a\\\"b\" x";
    hide ProgramAndRest;
    SplitsOpenQuote();
  }

  lemma QuotedQuote()
    ensures Quoted("a\"b") == "\"a\\\"b\""
  {
    var name := "a\"b";
    assert name[1] == '"';
    assert name[1..] == "\"b" && "\"b"[1..] == "b";
    assert Escaped("b", 0) == "b";
    assert Escaped("\"b", 0) == "\\\"b";
  }

  lemma SplitsOpenQuote()
    ensures Split("b\" x", Reopen) == ["b x"]
  {
    var s := "b\" x";
    assert Slashes(0) == "" && s[1..] == "\" x" && "\" x"[1..] == " " + "x";
    assert "" + Slashes(0) + ['b'] == "b" && "b" + Slashes(0 / 2) == "b";
    assert Scan(s, false, 0, "", Reopen) == Scan("\" x", false, 0, "b", Reopen);
    assert Scan("\" x", false, 0, "b", Reopen) == Scan(" " + "x", true, 0, "b", Reopen);
    ScanLiteral(' ', "x", 0, "b", Reopen);
    assert [' '] + "x" == " " + "x" && "b" + Slashes(0) + [' '] == "b ";
    ScanLiteral('x', "", 0, "b ", Reopen);
    assert ['x'] + "" == "x" && "b " + Slashes(0) + ['x'] == "b x" && "b x" + Slashes(0) == "b x";
    assert Scan(s, false, 0, "", Reopen) == ("b x", "");
  }
}
