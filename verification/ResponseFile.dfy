/** Response files on POSIX hosts (`ResponseFile` and `executeAndWait` in driver/args.cpp). */
module ResponseFile {

  import opened Common

  /** Inside the double quotes: backslashes and double quotes are escaped. */
  function Escaped(arg: string): string {
    if arg == "" then ""
    else (if arg[0] == '\\' || arg[0] == '"' then ['\\', arg[0]] else [arg[0]]) + Escaped(arg[1..])
  }

  function Line(arg: string): string {
    "\"" + Escaped(arg) + "\"\n"
  }

  function Content(args: seq<string>): string {
    if args == [] then "" else Line(args[0]) + Content(args[1..])
  }

  /** The text of a file, character by character: each argument stands in quotes on a line of its own, with a backslash in
      front of each backslash and each double quote, and of nothing else. */
  lemma TextExactly(a: string, c: char, args: seq<string>, arg: string)
    ensures Escaped("") == ""
    ensures Escaped(a + [c]) == Escaped(a) + if c == '\\' || c == '"' then ['\\', c] else [c]
    ensures Content([]) == ""
    ensures Content(args + [arg]) == Content(args) + (['"'] + Escaped(arg) + ['"', '\n'])
  {
    EscapedConcat(a, [c]);
    ContentConcat(args, [arg]);
    assert [c][1..] == "" && [arg][1..] == [];
    assert Escaped([c]) == if c == '\\' || c == '"' then ['\\', c] else [c];
    assert "\"" == ['"'] && "\"\n" == ['"', '\n'];
    assert Content([arg]) == ['"'] + Escaped(arg) + ['"', '\n'];
  }

  lemma {:induction false} EscapedConcat(a: string, b: string)
    ensures Escaped(a + b) == Escaped(a) + Escaped(b)
    decreases |a|
  {
    if a == "" {
      assert a + b == b;
    } else {
      assert (a + b)[1..] == a[1..] + b;
      EscapedConcat(a[1..], b);
    }
  }

  // ---------------------------------------------------------------- the reader of the called program

  datatype Quote = NoQuote | SingleQuote | DoubleQuote

  /** A reader of response files in the style of GNU's `buildargv`: a backslash escapes the next character
      everywhere, both kinds of quotes group, white space outside quotes separates. */
  datatype Reader = Reader(done: seq<string>, inArg: bool, arg: string, quote: Quote, escaped: bool) {

    predicate Between() { !inArg && arg == "" && quote == NoQuote && !escaped }

    function Take(c: char): Reader {
      this.(inArg := true, arg := arg + [c], escaped := false)
    }

    function Step(c: char): Reader {
      if escaped then Take(c)
      else if c == '\\' then this.(inArg := true, escaped := true)
      else if quote == SingleQuote then if c == '\'' then this.(quote := NoQuote) else Take(c)
      else if quote == DoubleQuote then if c == '"' then this.(quote := NoQuote) else Take(c)
      else if c == '\'' then this.(inArg := true, quote := SingleQuote)
      else if c == '"' then this.(inArg := true, quote := DoubleQuote)
      else if IsSpace(c) then if inArg then Reader(done + [arg], false, "", NoQuote, false) else this
      else Take(c)
    }

    function Run(text: string): Reader
      decreases |text|
    {
      if text == "" then this else Step(text[0]).Run(text[1..])
    }

    function Args(): seq<string> {
      if inArg then done + [arg] else done
    }
  }

  predicate IsSpace(c: char) {
    c in " \t\n\r" || c as int == 11 || c as int == 12
  }

  const START := Reader([], false, "", NoQuote, false)

  function Decode(text: string): seq<string> {
    START.Run(text).Args()
  }

  // ---------------------------------------------------------------- round trip

  lemma {:induction false} RunConcat(r: Reader, a: string, b: string)
    ensures r.Run(a + b) == r.Run(a).Run(b)
    decreases |a|
  {
    if a == "" {
      assert a + b == b;
    } else {
      assert (a + b)[1..] == a[1..] + b;
      RunConcat(r.Step(a[0]), a[1..], b);
    }
  }

  /** Within double quotes, the reader undoes the escapes. */
  lemma {:induction false} ReadsEscaped(r: Reader, arg: string)
    requires r.inArg && r.quote == DoubleQuote && !r.escaped
    ensures r.Run(Escaped(arg)) == r.(arg := r.arg + arg)
    decreases |arg|
  {
    if arg == "" {
      assert r.arg + arg == r.arg;
    } else {
      var c := arg[0];
      var first := if c == '\\' || c == '"' then ['\\', c] else [c];
      RunConcat(r, first, Escaped(arg[1..]));
      ReadsOne(r, c);
      ReadsEscaped(r.Take(c), arg[1..]);
      assert r.arg + [c] + arg[1..] == r.arg + arg;
    }
  }

  lemma ReadsOne(r: Reader, c: char)
    requires r.inArg && r.quote == DoubleQuote && !r.escaped
    ensures r.Run(if c == '\\' || c == '"' then ['\\', c] else [c]) == r.Take(c)
  {
    if c == '\\' || c == '"' {
      assert ['\\', c][1..] == [c] && [c][1..] == "";
      assert r.Run(['\\', c]) == r.Step('\\').Step(c).Run("");
    }
  }

  lemma ReadsLine(r: Reader, arg: string)
    requires r.Between()
    ensures r.Run(Line(arg)) == r.(done := r.done + [arg])
  {
    var quoted := r.Step('"');
    assert Line(arg)[1..] == Escaped(arg) + "\"\n";
    RunConcat(quoted, Escaped(arg), "\"\n");
    ReadsEscaped(quoted, arg);
    var full := quoted.(arg := quoted.arg + arg);
    assert quoted.arg + arg == arg;
    assert "\"\n"[1..] == "\n" && "\n"[1..] == "";
    assert full.Run("\"\n") == full.Step('"').Step('\n').Run("");
  }

  /** After a whole file the reader has collected the arguments and stands between two arguments. */
  lemma {:induction false} ReadsContent(r: Reader, args: seq<string>)
    requires r.Between()
    ensures r.Run(Content(args)) == r.(done := r.done + args)
    decreases |args|
  {
    if args == [] {
      assert r.done + args == r.done;
    } else {
      RunConcat(r, Line(args[0]), Content(args[1..]));
      ReadsLine(r, args[0]);
      ReadsContent(r.(done := r.done + [args[0]]), args[1..]);
      assert r.done + [args[0]] + args[1..] == r.done + args;
    }
  }

  /** The reader recovers every argument list exactly: empty arguments, quotes, backslashes, blanks and newlines
      included. */
  lemma RoundTrip(args: seq<string>)
    ensures Decode(Content(args)) == args
  {
    ReadsContent(START, args);
    assert [] + args == args;
  }

  lemma {:induction false} NothingForgotten(r: Reader, text: string)
    ensures r.done <= r.Run(text).done
    decreases |text|
  {
    if text != "" {
      NothingForgotten(r.Step(text[0]), text[1..]);
    }
  }

  lemma {:induction false} ContentConcat(a: seq<string>, b: seq<string>)
    ensures Content(a + b) == Content(a) + Content(b)
    decreases |a|
  {
    if a == [] {
      assert a + b == b;
    } else {
      assert (a + b)[1..] == a[1..] + b;
      ContentConcat(a[1..], b);
    }
  }

  /** One file's text is a prefix of another's exactly when its argument list is; so different lists have different
      texts. */
  lemma PrefixExactly(a: seq<string>, b: seq<string>)
    ensures Content(a) <= Content(b) <==> a <= b
    ensures Content(a) == Content(b) <==> a == b
  {
    if a <= b {
      ContentConcat(a, b[|a|..]);
      assert b == a + b[|a|..];
    }
    if Content(a) <= Content(b) {
      var more := Content(b)[|Content(a)|..];
      assert Content(b) == Content(a) + more;
      RunConcat(START, Content(a), more);
      NothingForgotten(START.Run(Content(a)), more);
      RoundTrip(a);
      RoundTrip(b);
      ReadsContent(START, a);
      ReadsContent(START, b);
    }
    if Content(a) == Content(b) {
      RoundTrip(a);
      RoundTrip(b);
    }
  }

  // ---------------------------------------------------------------- what the reader does with other texts

  /** The six characters that separate arguments. */
  predicate Separates(c: char) {
    c == ' ' || c == '\t' || c == '\n' || c == '\r' || c as int == 11 || c as int == 12
  }

  predicate Plain(s: string) {
    forall k :: 0 <= k < |s| ==> !Separates(s[k]) && s[k] != '\'' && s[k] != '"' && s[k] != '\\'
  }

  lemma SpacesExactly(c: char)
    ensures IsSpace(c) <==> Separates(c)
  {
    assert " \t\n\r" == [' ', '\t', '\n', '\r'];
  }

  /** What was read before does not matter. */
  lemma {:induction false} DoneInFront(front: seq<string>, r: Reader, text: string)
    ensures r.(done := front + r.done).Run(text) == r.Run(text).(done := front + r.Run(text).done)
    decreases |text|
  {
    if text != "" {
      DoneInFront(front, r.Step(text[0]), text[1..]);
      Assoc(front, r.done, [r.arg]);
    }
  }

  lemma {:induction false} ReadsPlain(r: Reader, s: string)
    requires r.quote == NoQuote && !r.escaped && s != "" && Plain(s)
    ensures r.Run(s) == r.(inArg := true, arg := r.arg + s)
    decreases |s|
  {
    SpacesExactly(s[0]);
    var next := r.Step(s[0]);
    assert next == r.Take(s[0]);
    if |s| == 1 {
      assert s[1..] == "" && s == [s[0]];
    } else {
      ReadsPlain(next, s[1..]);
      assert r.arg + [s[0]] + s[1..] == r.arg + s;
    }
  }

  /** A plain word ends at any of the separating characters. */
  lemma WordRead(word: string, c: char, more: string)
    requires word != "" && Plain(word) && Separates(c)
    ensures Decode(word) == [word] && Decode(word + ([c] + more)) == [word] + Decode(more)
  {
    ReadsPlain(START, word);
    assert "" + word == word;
    RunConcat(START, word, [c] + more);
    RunConcat(START.Run(word), [c], more);
    assert [c][1..] == "";
    SpacesExactly(c);
    DoneInFront([word], START, more);
    assert [word] + START.done == [word];
  }

  lemma {:induction false} ReadsSingleQuoted(r: Reader, s: string)
    requires r.inArg && r.quote == SingleQuote && !r.escaped && '\'' !in s && '\\' !in s
    ensures r.Run(s) == r.(arg := r.arg + s)
    decreases |s|
  {
    if s == "" {
      assert r.arg + s == r.arg;
    } else {
      assert s[0] in s;
      ReadsSingleQuoted(r.Take(s[0]), s[1..]);
      assert r.arg + [s[0]] + s[1..] == r.arg + s;
    }
  }

  /** Single quotes group as well. */
  lemma SingleQuotedRead(s: string)
    requires '\'' !in s && '\\' !in s
    ensures Decode(['\''] + s + ['\'']) == [s]
  {
    assert ['\''] + s + ['\''] == ['\''] + (s + ['\'']);
    var opening := START.Step('\'');
    assert (['\''] + (s + ['\'']))[1..] == s + ['\''];
    RunConcat(opening, s, ['\'']);
    ReadsSingleQuoted(opening, s);
    assert "" + s == s && ['\''][1..] == "";
    assert opening.Run(s).Run(['\'']) == opening.Run(s).Step('\'').Run("");
  }

  // ---------------------------------------------------------------- running a program

  /** A started program: what it is given, and the files that exist while it runs. */
  datatype Process = Process(argv: seq<string>, files: map<string, string>)

  class Host {
    var files: map<string, string>
    var started: seq<Process>

    constructor ()
      ensures files == map[] && started == []
    {
      files, started := map[], [];
    }
  }

  /** The program gets its arguments either directly or through one response file. */
  ghost predicate Receives(p: Process, fullArgs: seq<string>) {
    p.argv == fullArgs ||
    (fullArgs != [] && |p.argv| == 2 && p.argv[0] == fullArgs[0] && "@" <= p.argv[1] &&
     p.argv[1][1..] in p.files && Decode(p.files[p.argv[1][1..]]) == fullArgs[1..])
  }

  class File {
    var path: string

    constructor ()
      ensures path == ""
    {
      path := "";
    }

    /** Creates a response file if the command line does not fit. The host decides whether it fits, which unused
        temporary name it hands out (if any), and how much of the text it writes. */
    method Setup(host: Host, fullArgs: seq<string>, fits: bool, temp: Option<string>, written: nat) returns (ok: bool)
      requires path == "" && fullArgs != []
      requires temp.Some? ==> temp.value != "" && temp.value !in host.files
      modifies this`path, host`files
      ensures fits || temp.None? ==> path == "" && host.files == old(host.files)
      ensures !fits && temp.Some? ==>
        path == temp.value && host.files.Keys == old(host.files).Keys + {path} &&
        host.files - {path} == old(host.files) &&
        (ok ==> host.files[path] == Content(fullArgs[1..]))
      ensures ok <==> fits || (temp.Some? && written >= |Content(fullArgs[1..])|)
    {
      var args := fullArgs[1..];
      if fits {
        return true;
      }
      var content := Text(args);
      if temp.None? {
        return false;
      }
      path := temp.value;
      host.files := host.files[path := if written < |content| then content[..written] else content];
      assert host.files - {path} == old(host.files);
      ok := written >= |content|;
    }

    /** The destructor: deletes the file. */
    method Delete(host: Host)
      modifies host`files
      ensures host.files == if path == "" then old(host.files) else old(host.files) - {path}
    {
      if path != "" {
        host.files := host.files - {path};
      }
    }
  }

  /** The quoting loops. */
  method Text(args: seq<string>) returns (content: string)
    ensures content == Content(args)
  {
    content := "";
    for k := 0 to |args|
      invariant Content(args) == content + Content(args[k..])
    {
      var arg := args[k];
      ghost var before := content;
      content := content + "\"";
      for i := 0 to |arg|
        invariant before + "\"" + Escaped(arg) == content + Escaped(arg[i..])
      {
        ghost var was := content;
        var c := arg[i];
        if c == '\\' || c == '"' {
          content := content + "\\";
        }
        content := content + [c];
        EscapeOne(was, arg, i);
      }
      content := content + "\"\n";
      LineOne(before, args, k);
    }
  }

  lemma EscapeOne(content: string, arg: string, i: nat)
    requires i < |arg|
    ensures
      content + Escaped(arg[i..]) ==
      (if arg[i] == '\\' || arg[i] == '"' then content + "\\" + [arg[i]] else content + [arg[i]]) + Escaped(arg[i + 1..])
  {
    assert arg[i..][1..] == arg[i + 1..];
  }

  lemma LineOne(content: string, args: seq<string>, k: nat)
    requires k < |args|
    ensures content + Content(args[k..]) == content + "\"" + Escaped(args[k]) + "\"\n" + Content(args[k + 1..])
  {
    assert args[k..][1..] == args[k + 1..];
  }

  /** Whichever way the arguments go, a program that is started receives exactly them, and no file stays behind. It
      is not started if and only if a response file is needed and cannot be created or written in full. */
  method ExecuteAndWait(host: Host, fullArgs: seq<string>, fits: bool, temp: Option<string>, written: nat)
      returns (ok: bool)
    requires fullArgs != []
    requires temp.Some? ==> temp.value != "" && temp.value !in host.files
    modifies host
    ensures host.files == old(host.files)
    ensures ok <==> fits || (temp.Some? && written >= |Content(fullArgs[1..])|)
    ensures !ok ==> host.started == old(host.started)
    ensures ok ==>
      |host.started| == |old(host.started)| + 1 && host.started[..|old(host.started)|] == old(host.started) &&
      Receives(host.started[|old(host.started)|], fullArgs)
  {
    var rspFile := new File();
    var argv := fullArgs;
    ok := rspFile.Setup(host, fullArgs, fits, temp, written);
    if ok {
      if rspFile.path != "" {
        argv := argv[..1];
        argv := argv + ["@" + rspFile.path];
        RoundTrip(fullArgs[1..]);
      }
      host.started := host.started + [Process(argv, host.files)];
    }
    rspFile.Delete(host);
  }
}
