/** The part of the cache key that comes from the command line (`outputIR2ObjRelevantCmdlineArgs` in
    driver/cache.cpp): a whitelist of arguments without influence on the object code is skipped. */
module CacheKey {
  import opened CStrings

  /** An element of the argument vector. */
  datatype Arg = Null | Str(s: string)

  // ---------------------------------------------------------------- specification

  /** The arguments that cannot change the object code, other than through the module that is hashed anyway. */
  predicate Ignorable(s: string) {
    || s == ""
    || "-O" <= s || s == "-c"
    || "-D" <= s || "-H" <= s || "-I" <= s || "-J" <= s || "-L" <= s || "-X" <= s
    || (("-d" <= s || "-v" <= s || "-w" <= s) && |s| < 11)
    || "-of" <= s || "-od" <= s || "-cache" <= s || s == "-lib"
    || "-d-version" <= s || s == "-unittest"
  }

  predicate Skipped(arg: Arg) {
    arg.Null? || Ignorable(arg.s)
  }

  /** The index of the first `-run`, or the number of arguments. */
  function RunIndex(args: seq<Arg>): (n: nat)
    ensures n <= |args|
    ensures n < |args| ==> args[n] == Str("-run")
    ensures forall i :: 0 <= i < n ==> args[i] != Str("-run")
  {
    if args == [] || args[0] == Str("-run") then 0 else 1 + RunIndex(args[1..])
  }

  function Kept(skip: Arg -> bool, args: seq<Arg>): seq<string> {
    if args == [] then []
    else if skip(args[0]) || args[0].Null? then Kept(skip, args[1..])
    else [args[0].s] + Kept(skip, args[1..])
  }

  function Concat(parts: seq<string>): string {
    if parts == [] then "" else parts[0] + Concat(parts[1..])
  }

  /** What the arguments behind the executable contribute to the key, given those to skip. */
  function KeyStream(skip: Arg -> bool, args: seq<Arg>): string {
    Concat(Kept(skip, args[..RunIndex(args)]))
  }

  // ---------------------------------------------------------------- the filter loop

  ghost predicate CStringArgs(args: seq<Arg>) {
    forall arg <- args :: arg.Str? ==> NUL !in arg.s
  }

  /** One round of the loop: whether the argument is skipped (`continue`), ends the loop (`break`), or is kept. */
  datatype Verdict = Continue | Break | Keep

  /** The character tests of the loop body, in the order of the code; every read stays inside the argument. */
  method Judge(arg: string) returns (v: Verdict)
    requires NUL !in arg
    ensures v == if Ignorable(arg) then Continue else if arg == "-run" then Break else Keep
  {
    if At(arg, 0) == NUL {
      return Continue;
    }
    if At(arg, 0) == '-' {
      assert arg == "-" + arg[1..];
      if At(arg, 1) == 'O' {
        return Continue;
      }
      if At(arg, 1) == 'c' && At(arg, 2) == NUL {
        assert arg == "-c";
        return Continue;
      }
      if At(arg, 1) == 'D' || At(arg, 1) == 'H' || At(arg, 1) == 'I' || At(arg, 1) == 'J' || At(arg, 1) == 'L' || At(arg, 1) == 'X' {
        return Continue;
      }
      if At(arg, 1) == 'd' || At(arg, 1) == 'v' || At(arg, 1) == 'w' {
        var short := IsShort(arg);
        if short {
          return Continue;
        }
      }
      v := JudgeLong(arg);
      return v;
    }
    return Keep;
  }

  /** The loop counting up to 11 characters. */
  method IsShort(arg: string) returns (short: bool)
    requires NUL !in arg && |arg| >= 2
    ensures short <==> |arg| < 11
  {
    var len := 2;
    while len < 11
      invariant 2 <= len <= 11 && len <= |arg|
    {
      if At(arg, len) == NUL {
        break;
      }
      len := len + 1;
    }
    return len < 11;
  }

  /** The tests behind the short options. */
  method JudgeLong(arg: string) returns (v: Verdict)
    requires NUL !in arg && arg != "" && arg[0] == '-'
    ensures v ==
      if "-of" <= arg || "-od" <= arg || "-cache" <= arg || arg == "-lib" || "-d-version" <= arg || arg == "-unittest"
      then Continue else if arg == "-run" then Break else Keep
  {
    var rest := arg[1..];
    BehindDash(arg, "of");
    BehindDash(arg, "od");
    BehindDash(arg, "cache");
    BehindDash(arg, "d-version");
    assert "-of" == "-" + "of" && "-od" == "-" + "od" && "-cache" == "-" + "cache" && "-d-version" == "-" + "d-version";
    if At(arg, 1) == 'o' && At(arg, 2) == 'f' {
      return Continue;
    }
    if At(arg, 1) == 'o' && At(arg, 2) == 'd' {
      return Continue;
    }
    if StartsAt(arg, 1, "cache") {
      return Continue;
    }
    if At(arg, 1) == 'l' && At(arg, 2) == 'i' && At(arg, 3) == 'b' && At(arg, 4) == NUL {
      assert arg == "-lib";
      return Continue;
    }
    if StartsAt(arg, 1, "d-version") {
      return Continue;
    }
    if EqualsAt(arg, 1, "unittest") {
      return Continue;
    }
    if EqualsAt(arg, 1, "run") {
      return Break;
    }
    return Keep;
  }

  /** Writes the relevant arguments to the stream being hashed; the first argument is the executable. */
  method OutputRelevantArgs(args: seq<Arg>, hashed: string) returns (r: string)
    requires args != [] && CStringArgs(args)
    ensures r == hashed + KeyStream(Skipped, args[1..])
  {
    r := hashed;
    var it := 1;
    while it < |args|
      invariant 1 <= it <= |args|
      invariant hashed + KeyStream(Skipped, args[1..]) == r + KeyStream(Skipped, args[it..])
    {
      Written(r, args, it);
      if args[it].Str? {
        assert args[it] in args;
        var v := Judge(args[it].s);
        if v.Break? {
          break;
        }
        if v.Keep? {
          r := r + args[it].s;
        }
      }
      it := it + 1;
    }
  }

  /** What one round of the loop writes. */
  lemma Written(r: string, args: seq<Arg>, it: nat)
    requires it < |args|
    ensures r + KeyStream(Skipped, args[it..]) ==
      match args[it]
      case Null => r + KeyStream(Skipped, args[it + 1..])
      case Str(s) =>
        if Ignorable(s) then r + KeyStream(Skipped, args[it + 1..])
        else if s == "-run" then r
        else r + s + KeyStream(Skipped, args[it + 1..])
  {
    var rest := KeyStream(Skipped, args[it + 1..]);
    assert args[it..][1..] == args[it + 1..];
    KeyStep(Skipped, args[it..]);
    RunNotIgnorable();
    Around(r, if Skipped(args[it]) then "" else args[it].s, rest);
  }

  lemma Around(r: string, here: string, rest: string)
    ensures r + (here + rest) == r + here + rest && r + "" == r
  {
  }

  lemma RunNotIgnorable()
    ensures !Ignorable("-run")
  {
    assert "-run"[1] == 'r';
  }

  lemma KeyStep(skip: Arg -> bool, args: seq<Arg>)
    requires args != []
    ensures KeyStream(skip, args) ==
      if args[0] == Str("-run") then ""
      else (if skip(args[0]) || args[0].Null? then "" else args[0].s) + KeyStream(skip, args[1..])
  {
    var n := RunIndex(args);
    if n > 0 {
      assert args[..n][1..] == args[1..][..n - 1];
    }
  }

  /** What the first argument of a front part writes. */
  lemma FrontStep(skip: Arg -> bool, front: seq<Arg>, rest: seq<Arg>)
    requires front != []
    ensures KeyStream(skip, front + rest) ==
      if front[0] == Str("-run") then ""
      else (if skip(front[0]) || front[0].Null? then "" else front[0].s) + KeyStream(skip, front[1..] + rest)
  {
    KeyStep(skip, front + rest);
    assert (front + rest)[1..] == front[1..] + rest;
  }

  // ---------------------------------------------------------------- what the key depends on

  /** Inserting or deleting an ignorable argument before `-run` leaves the key unchanged. */
  lemma {:induction false} IgnorableIsIgnored(skip: Arg -> bool, pre: seq<Arg>, arg: Arg, post: seq<Arg>)
    requires skip(arg) && !skip(Str("-run"))
    ensures KeyStream(skip, pre + [arg] + post) == KeyStream(skip, pre + post)
    decreases |pre|
  {
    if pre == [] {
      FrontStep(skip, [arg], post);
      assert pre + [arg] + post == [arg] + post && [arg][1..] + post == post && pre + post == post;
    } else {
      MoveArg(pre, arg, post);
      FrontStep(skip, pre, [arg] + post);
      FrontStep(skip, pre, post);
      IgnorableIsIgnored(skip, pre[1..], arg, post);
    }
  }

  lemma MoveArg(pre: seq<Arg>, arg: Arg, post: seq<Arg>)
    requires pre != []
    ensures pre + [arg] + post == pre + ([arg] + post) && pre[1..] + [arg] + post == pre[1..] + ([arg] + post)
  {
  }

  /** Nothing behind a `-run` matters. */
  lemma {:induction false} NothingAfterRun(skip: Arg -> bool, pre: seq<Arg>, post: seq<Arg>, post': seq<Arg>)
    requires Str("-run") in pre
    ensures KeyStream(skip, pre + post) == KeyStream(skip, pre + post')
    decreases |pre|
  {
    FrontStep(skip, pre, post);
    FrontStep(skip, pre, post');
    if pre[0] != Str("-run") {
      NothingAfterRun(skip, pre[1..], post, post');
    }
  }

  /** Without a `-run` in front, a kept argument is part of the key at its place. */
  lemma {:induction false} KeptIsHashed(skip: Arg -> bool, pre: seq<Arg>, arg: Arg, post: seq<Arg>)
    requires arg.Str? && !skip(arg) && arg != Str("-run") && Str("-run") !in pre
    ensures KeyStream(skip, pre + [arg] + post) == KeyStream(skip, pre) + arg.s + KeyStream(skip, post)
    decreases |pre|
  {
    if pre == [] {
      FrontStep(skip, [arg], post);
      assert pre + [arg] + post == [arg] + post && [arg][1..] + post == post;
    } else {
      KeyStep(skip, pre);
      MoveArg(pre, arg, post);
      FrontStep(skip, pre, [arg] + post);
      KeptIsHashed(skip, pre[1..], arg, post);
      var front := if skip(pre[0]) || pre[0].Null? then "" else pre[0].s;
      Regroup(front, KeyStream(skip, pre[1..]), arg.s, KeyStream(skip, post));
    }
  }

  lemma Regroup(a: string, b: string, c: string, d: string)
    ensures a + (b + c + d) == a + b + c + d
  {
  }

  /** Kept arguments are written without separators: streams that agree come from the same list of kept
      arguments if and only if the argument lengths agree too. */
  lemma {:induction false} FramingExact(a: seq<string>, b: seq<string>)
    requires Concat(a) == Concat(b)
    ensures a == b <==> |a| == |b| && forall i :: 0 <= i < |a| ==> |a[i]| == |b[i]|
    decreases |a|
  {
    if |a| == |b| && (forall i :: 0 <= i < |a| ==> |a[i]| == |b[i]|) && a != [] {
      assert a[0] == Concat(a)[..|a[0]|] == Concat(b)[..|b[0]|] == b[0];
      assert Concat(a[1..]) == Concat(a)[|a[0]|..] == Concat(b)[|b[0]|..] == Concat(b[1..]);
      FramingExact(a[1..], b[1..]);
      assert a == [a[0]] + a[1..] && b == [b[0]] + b[1..];
    }
  }

  /** Two source files give the same key as one whose name is both names joined, for example. */
  lemma FramingIsLost(skip: Arg -> bool, a: string, b: string)
    requires forall s <- [a, b, a + b] :: !skip(Str(s)) && s != "-run"
    ensures Kept(skip, [Str(a), Str(b)]) == [a, b] && Kept(skip, [Str(a + b)]) == [a + b]
    ensures KeyStream(skip, [Str(a), Str(b)]) == KeyStream(skip, [Str(a + b)]) == a + b
  {
    assert [a, b, a + b][0] == a && [a, b, a + b][1] == b && [a, b, a + b][2] == a + b;
    SingleKept(skip, b);
    SingleKept(skip, a + b);
    KeyStep(skip, [Str(a), Str(b)]);
    assert [Str(a), Str(b)][1..] == [Str(b)];
  }

  lemma SingleKept(skip: Arg -> bool, a: string)
    requires !skip(Str(a)) && a != "-run"
    ensures Kept(skip, [Str(a)]) == [a] && KeyStream(skip, [Str(a)]) == a
  {
    KeyStep(skip, [Str(a)]);
    assert [Str(a)][1..] == [];
    assert a + "" == a;
  }

  /** The filter skips neither `-run` nor an argument without a dash, such as a source file. */
  lemma NotSkipped(s: string)
    requires s != "" && s[0] != '-'
    ensures !Skipped(Str(s)) && s != "-run" && !Skipped(Str("-run"))
  {
    RunNotIgnorable();
  }

  // ---------------------------------------------------------------- the filter of the code

  /** Inserting or deleting an argument the filter skips leaves the key unchanged. */
  lemma SkippedIsIgnored(pre: seq<Arg>, arg: Arg, post: seq<Arg>)
    requires Skipped(arg)
    ensures KeyStream(Skipped, pre + [arg] + post) == KeyStream(Skipped, pre + post)
  {
    RunNotIgnorable();
    IgnorableIsIgnored(Skipped, pre, arg, post);
  }

  /** Two source files give the same key as one whose name is both names joined. */
  lemma FilesCollide(a: string, b: string)
    requires a != "" && a[0] != '-' && b != "" && b[0] != '-'
    ensures KeyStream(Skipped, [Str(a), Str(b)]) == KeyStream(Skipped, [Str(a + b)])
  {
    NotSkipped(a);
    NotSkipped(b);
    NotSkipped(a + b);
    FramingIsLost(Skipped, a, b);
  }

  /** A `--run` does not end the arguments that count: what follows it stays part of the key. */
  lemma LongRunIsKept(pre: seq<Arg>, post: seq<Arg>)
    requires Str("-run") !in pre
    ensures KeyStream(Skipped, pre + [Str("--run")] + post) == KeyStream(Skipped, pre) + "--run" + KeyStream(Skipped, post)
  {
    assert "--run"[1] == '-' && "-c" != "--run";
    KeptIsHashed(Skipped, pre, Str("--run"), post);
  }

  /** So different arguments of the program to run give different keys behind `--run`, but the same behind `-run`. */
  lemma ProgramArgumentsCount(pre: seq<Arg>, a: string, b: string)
    requires Str("-run") !in pre && a != b && a != "" && a[0] != '-' && b != "" && b[0] != '-'
    ensures KeyStream(Skipped, pre + [Str("--run")] + [Str(a)]) != KeyStream(Skipped, pre + [Str("--run")] + [Str(b)])
    ensures KeyStream(Skipped, pre + [Str("-run")] + [Str(a)]) == KeyStream(Skipped, pre + [Str("-run")] + [Str(b)])
  {
    NotSkipped(a);
    NotSkipped(b);
    LongRunIsKept(pre, [Str(a)]);
    LongRunIsKept(pre, [Str(b)]);
    SingleKept(Skipped, a);
    SingleKept(Skipped, b);
    SameFront(KeyStream(Skipped, pre) + "--run", a, b);
    NothingAfterRun(Skipped, pre + [Str("-run")], [Str(a)], [Str(b)]);
  }

  lemma SameFront(front: string, a: string, b: string)
    ensures front + a == front + b ==> a == b
  {
    assert a == (front + a)[|front|..] && b == (front + b)[|front|..];
  }

  // ---------------------------------------------------------------- which arguments count, by their characters

  /** An argument leaves no trace, or is written as it is, between what is in front of it and what follows. */
  lemma OneArgument(pre: seq<Arg>, s: string, post: seq<Arg>)
    requires Str("-run") !in pre && s != "-run"
    ensures KeyStream(Skipped, pre + [Str(s)] + post) ==
      KeyStream(Skipped, pre) + (if Ignorable(s) then "" else s) + KeyStream(Skipped, post)
  {
    if Ignorable(s) {
      SkippedIsIgnored(pre, Str(s), post);
      BothParts(pre, post);
      assert KeyStream(Skipped, pre) + "" == KeyStream(Skipped, pre);
    } else {
      KeptIsHashed(Skipped, pre, Str(s), post);
    }
  }

  lemma {:induction false} BothParts(pre: seq<Arg>, post: seq<Arg>)
    requires Str("-run") !in pre
    ensures KeyStream(Skipped, pre + post) == KeyStream(Skipped, pre) + KeyStream(Skipped, post)
    decreases |pre|
  {
    if pre == [] {
      assert pre + post == post;
    } else {
      FrontStep(Skipped, pre, post);
      KeyStep(Skipped, pre);
      BothParts(pre[1..], post);
      var front := if Skipped(pre[0]) then "" else pre[0].s;
      Joined(front, KeyStream(Skipped, pre[1..]), KeyStream(Skipped, post));
    }
  }

  lemma Joined(a: string, b: string, c: string)
    ensures a + (b + c) == a + b + c
  {
  }

  /** Every argument in front of `-run` is written or not, exactly by these characters and lengths. */
  lemma CountsExactly(pre: seq<Arg>, s: string, post: seq<Arg>)
    requires Str("-run") !in pre && s != "-run"
    ensures
      var stream := KeyStream(Skipped, pre + [Str(s)] + post);
      var without := KeyStream(Skipped, pre) + KeyStream(Skipped, post);
      var withIt := KeyStream(Skipped, pre) + s + KeyStream(Skipped, post);
      if |s| < 2 || s[0] != '-' then stream == withIt
      else match s[1]
        case 'O' => stream == without
        case 'D' => stream == without
        case 'H' => stream == without
        case 'I' => stream == without
        case 'J' => stream == without
        case 'L' => stream == without
        case 'X' => stream == without
        case 'c' => stream == if s == "-c" || (|s| >= 6 && s[2..6] == "ache") then without else withIt
        case 'd' => stream == if |s| < 11 || s[2..10] == "-version" then without else withIt
        case 'v' => stream == if |s| < 11 then without else withIt
        case 'w' => stream == if |s| < 11 then without else withIt
        case 'o' => stream == if |s| >= 3 && (s[2] == 'f' || s[2] == 'd') then without else withIt
        case 'l' => stream == if s == "-lib" then without else withIt
        case 'u' => stream == if s == "-unittest" then without else withIt
        case _ => stream == withIt
  {
    OneArgument(pre, s, post);
    assert KeyStream(Skipped, pre) + "" == KeyStream(Skipped, pre);
    if s == "" {
    } else if |s| < 2 || s[0] != '-' {
      OtherIgnorable(s);
    } else {
      IgnorableByCharacters(s);
    }
  }

  lemma OtherIgnorable(s: string)
    requires s != "" && (|s| < 2 || s[0] != '-')
    ensures !Ignorable(s)
  {
  }

  /** The prefixes of the filter, character by character. */
  lemma IgnorableByCharacters(s: string)
    requires |s| >= 2 && s[0] == '-'
    ensures Ignorable(s) <==>
      match s[1]
      case 'O' => true
      case 'D' => true
      case 'H' => true
      case 'I' => true
      case 'J' => true
      case 'L' => true
      case 'X' => true
      case 'c' => s == "-c" || (|s| >= 6 && s[2..6] == "ache")
      case 'd' => |s| < 11 || s[2..10] == "-version"
      case 'v' => |s| < 11
      case 'w' => |s| < 11
      case 'o' => |s| >= 3 && (s[2] == 'f' || s[2] == 'd')
      case 'l' => s == "-lib"
      case 'u' => s == "-unittest"
      case _ => false
  {
    BehindTwo(s, "ache");
    BehindTwo(s, "-version");
    assert s[1] == 'c' ==> s[..2] == "-c" && "-c" + "ache" == "-cache";
    assert s[1] == 'd' ==> s[..2] == "-d" && "-d" + "-version" == "-d-version";
  }

  lemma BehindTwo(s: string, rest: string)
    requires |s| >= 2
    ensures s[..2] + rest <= s <==> |s| >= 2 + |rest| && s[2..2 + |rest|] == rest
  {
    if |s| >= 2 + |rest| {
      assert s[..2 + |rest|] == s[..2] + s[2..2 + |rest|];
      if s[..2] + rest <= s {
        assert s[2..2 + |rest|] == (s[..2] + rest)[2..] == rest;
      }
    }
  }

  /** The target's settings count: with other values the stream is another one. */
  lemma TargetCounts(pre: seq<Arg>, option: string, a: string, b: string, post: seq<Arg>)
    requires Str("-run") !in pre && a != b
    requires option == "-mtriple=" || option == "-mcpu=" || option == "-mattr=" || option == "-relocation-model="
    ensures KeyStream(Skipped, pre + [Str(option + a)] + post) != KeyStream(Skipped, pre + [Str(option + b)] + post)
  {
    ValueKept(option, a);
    ValueKept(option, b);
    SameFront(option, a, b);
    CountsExactly(pre, option + a, post);
    CountsExactly(pre, option + b, post);
    SameBack(KeyStream(Skipped, pre) + (option + a), KeyStream(Skipped, pre) + (option + b), KeyStream(Skipped, post));
    SameFront(KeyStream(Skipped, pre), option + a, option + b);
  }

  lemma ValueKept(option: string, value: string)
    requires option == "-mtriple=" || option == "-mcpu=" || option == "-mattr=" || option == "-relocation-model="
    ensures
      var s := option + value;
      |s| >= 4 && s[0] == '-' && (s[1] == 'm' || (s[1] == 'r' && s[2] == 'e')) && s != "-run"
  {
    assert (option + value)[0] == option[0] && (option + value)[1] == option[1] && (option + value)[2] == option[2];
    assert "-run"[2] == 'u';
  }

  lemma SameBack(a: string, b: string, back: string)
    ensures a + back == b + back ==> a == b
  {
    if a + back == b + back {
      assert a == (a + back)[..|a + back| - |back|] && b == (b + back)[..|b + back| - |back|];
    }
  }
}
