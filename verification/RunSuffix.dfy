/** The arguments behind the user's `-run` through both stages: ldmd's translation and LDC's configuration file. */
module RunSuffix {

  import opened CommandLine
  import opened Common
  import opened Ldmd

  /** The translation of the arguments in [i, n), each on its own; a `-run` among them stays. */
  function TranslateEach(f: Translator, args: seq<string>, i: nat, n: nat, pic: bool): Option<seq<string>>
    requires i <= n <= |args|
    decreases n - i
  {
    if i == n then Some([])
    else
      var t := f(args[i], pic, i);
      if t.Exit? then None
      else
        var rest := TranslateEach(f, args, i + 1, n, if t.Emit? then t.pic else pic);
        if rest.None? then None
        else Some((if t.Emit? then t.args else [args[i]]) + rest.value)
  }

  /** What ldmd hands to LDC: the translation of the user's options, up to a first `-run`, with DFLAGS put
      behind them, and the rest. */
  function Stage1(f: Translator, prog: string, options: seq<string>, dflags: seq<string>, suffix: seq<string>, ldc: string): Option<seq<string>> {
    var user := [prog] + options + suffix;
    var args := InsertAt(user, FirstFrom(user, s => s == "-run", 1), dflags);
    match TranslateFrom(f, args, 1, false)
    case None => None
    case Some(t) => Some([ldc, "-ldmd"] + t)
  }

  /** What LDC parses then. */
  function Stage2(args: seq<string>, switches: seq<string>, postSwitches: seq<string>): seq<string>
    requires args != []
  {
    var with := InsertAt(args, 1, switches);
    InsertAt(with, FirstFrom(with, IsRunArg, 1), postSwitches)
  }

  /** The order promised to the user. */
  function Layout(ldc: string, switches: seq<string>, translated: seq<string>, postSwitches: seq<string>, suffix: seq<string>): seq<string> {
    [ldc] + (switches + ["-ldmd"] + translated) + postSwitches + suffix
  }

  predicate StartsProgram(suffix: seq<string>) {
    suffix == [] || suffix[0] == "-run"
  }

  /** `makes` tells exactly which options become run switches on their way. */
  ghost predicate Exact(f: Translator, makes: string -> bool) {
    && makes("-run")
    && forall p, pic, i {:trigger f(p, pic, i)} ::
         match f(p, pic, i)
         case Run => p == "-run"
         case Exit => true
         case Emit(args, _) => p != "-run" && (HasRun(args) <==> makes(p))
  }

  ghost predicate NoneMakesRun(makes: string -> bool, args: seq<string>) {
    forall arg <- args :: !makes(arg)
  }

  // ---------------------------------------------------------------- stage 1

  /** x agrees with t up to and including the first run switch in t. */
  ghost predicate AgreesToRun(x: seq<string>, t: seq<string>) {
    forall j :: 0 <= j < |t| && !HasRun(t[..j]) ==> j < |x| && x[j] == t[j]
  }

  lemma HasRunSplit(a: seq<string>, b: seq<string>)
    ensures HasRun(a + b) <==> HasRun(a) || HasRun(b)
  {
    forall arg | arg in a || arg in b ensures arg in a + b {}
  }

  lemma AgreesBehind(front: seq<string>, x: seq<string>, t: seq<string>)
    requires AgreesToRun(x, t)
    ensures AgreesToRun(front + x, front + t)
  {
    forall j | 0 <= j < |front + t| && !HasRun((front + t)[..j])
      ensures j < |front + x| && (front + x)[j] == (front + t)[j]
    {
      if j >= |front| {
        assert (front + t)[..j] == front + t[..j - |front|];
        HasRunSplit(front, t[..j - |front|]);
      }
    }
  }

  lemma {:induction false} Stage1Each(f: Translator, makes: string -> bool, args: seq<string>, i: nat, n: nat, pic: bool)
    requires Exact(f, makes) && i <= n <= |args| && StartsProgram(args[n..]) && TranslateEach(f, args, i, n, pic).Some?
    requires forall pic :: f("-run", pic, n).Run?
    ensures TranslateFrom(f, args, i, pic).Some?
    ensures
      var x, t := TranslateFrom(f, args, i, pic).value, TranslateEach(f, args, i, n, pic).value;
      && AgreesToRun(x, t + args[n..])
      && ("-run" !in args[i..n] ==> x == t + args[n..])
    decreases n - i
  {
    if i == n {
      if i < |args| {
        assert args[i] == args[n..][0];
      }
      assert [] + args[n..] == args[n..];
    } else {
      var o := f(args[i], pic, i);
      var t := TranslateEach(f, args, i + 1, n, if o.Emit? then o.pic else pic).value;
      assert args[i..n] == [args[i]] + args[i + 1..n];
      if o.Run? {
        StopsAtRun(args[i..], [args[i]] + t + args[n..]);
        assert args[i] in args[i..n];
      } else {
        Stage1Each(f, makes, args, i + 1, n, o.pic);
        var x := TranslateFrom(f, args, i + 1, o.pic).value;
        AgreesBehind(o.args, x, t + args[n..]);
        Assoc(o.args, t, args[n..]);
        assert "-run" !in args[i..n] ==> "-run" !in args[i + 1..n];
      }
    }
  }

  /** What is behind a `-run` of the options is what it would be translated to. */
  predicate Untouched(f: Translator, args: seq<string>, i: nat, n: nat, pic: bool)
    requires i <= n <= |args|
    decreases n - i
  {
    i < n ==>
      var o := f(args[i], pic, i);
      && (o.Run? ==> TranslateEach(f, args, i, n, pic) == Some(args[i..n]))
      && (o.Emit? ==> Untouched(f, args, i + 1, n, o.pic))
  }

  /** The first stage gives the promised order exactly if nothing behind a `-run` of the options needs translation. */
  lemma {:induction false} Stage1Exactly(f: Translator, makes: string -> bool, args: seq<string>, i: nat, n: nat, pic: bool)
    requires Exact(f, makes) && i <= n <= |args| && StartsProgram(args[n..]) && TranslateEach(f, args, i, n, pic).Some?
    requires forall pic :: f("-run", pic, n).Run?
    ensures
      var x, t := TranslateFrom(f, args, i, pic), TranslateEach(f, args, i, n, pic).value;
      x.Some? && (x.value == t + args[n..] <==> Untouched(f, args, i, n, pic))
    decreases n - i
  {
    Stage1Each(f, makes, args, i, n, pic);
    if i < n {
      var o := f(args[i], pic, i);
      if o.Run? {
        assert args[i..] == args[i..n] + args[n..];
        Cancel(args[n..], args[i..n], TranslateEach(f, args, i, n, pic).value);
      } else {
        Stage1Exactly(f, makes, args, i + 1, n, o.pic);
        var t := TranslateEach(f, args, i + 1, n, o.pic).value;
        Assoc(o.args, t, args[n..]);
        Cancel(o.args, TranslateFrom(f, args, i + 1, o.pic).value, t + args[n..]);
      }
    }
  }

  /** The options and the suffix do not influence each other: the options are passed on as if alone. */
  lemma {:induction false} PassedAlone(f: Translator, makes: string -> bool, args: seq<string>, i: nat, n: nat, pic: bool)
    requires Exact(f, makes) && i <= n <= |args| && StartsProgram(args[n..]) && TranslateEach(f, args, i, n, pic).Some?
    requires forall pic :: f("-run", pic, n).Run?
    ensures TranslateFrom(f, args[..n], i, pic).Some?
    ensures TranslateFrom(f, args, i, pic) == Some(TranslateFrom(f, args[..n], i, pic).value + args[n..])
    decreases n - i
  {
    if i == n {
      if i < |args| {
        assert args[i] == args[n..][0];
      }
      assert [] + args[n..] == args[n..];
    } else {
      var o := f(args[i], pic, i);
      assert args[..n][i] == args[i];
      if o.Run? {
        assert args[i..] == args[..n][i..] + args[n..];
      } else {
        PassedAlone(f, makes, args, i + 1, n, o.pic);
        Assoc(o.args, TranslateFrom(f, args[..n], i + 1, o.pic).value, args[n..]);
      }
    }
  }

  lemma {:induction false} EachAlone(f: Translator, args: seq<string>, i: nat, n: nat, pic: bool)
    requires i <= n <= |args|
    ensures TranslateEach(f, args[..n], i, n, pic) == TranslateEach(f, args, i, n, pic)
    decreases n - i
  {
    if i < n {
      assert args[..n][i] == args[i];
      var o := f(args[i], pic, i);
      if !o.Exit? {
        EachAlone(f, args, i + 1, n, if o.Emit? then o.pic else pic);
      }
    }
  }

  /** What is passed on alone agrees with the translation of each option up to a first run switch. */
  lemma PassedAgrees(f: Translator, makes: string -> bool, args: seq<string>, i: nat, n: nat, pic: bool)
    requires Exact(f, makes) && i <= n <= |args| && TranslateEach(f, args, i, n, pic).Some?
    requires forall pic :: f("-run", pic, n).Run?
    ensures
      var y, t := TranslateFrom(f, args[..n], i, pic), TranslateEach(f, args, i, n, pic).value;
      y.Some? && AgreesToRun(y.value, t) && (!HasRun(t) ==> y.value == t)
  {
    var t := TranslateEach(f, args, i, n, pic).value;
    assert args[..n][n..] == [] && t + [] == t;
    EachAlone(f, args, i, n, pic);
    Stage1Each(f, makes, args[..n], i, n, pic);
    EachRun(f, makes, args, i, n, pic);
    assert args[..n][i..n] == args[i..n];
  }

  lemma StopsAtRun(x: seq<string>, t: seq<string>)
    requires x != [] && t != [] && x[0] == t[0] && IsRunArg(t[0])
    ensures AgreesToRun(x, t)
  {
    forall j | 0 < j < |t| ensures HasRun(t[..j]) {
      assert t[..j][0] in t[..j];
    }
  }

  /** A translation contains a run switch exactly if an option makes one. */
  lemma {:induction false} EachRun(f: Translator, makes: string -> bool, args: seq<string>, i: nat, n: nat, pic: bool)
    requires Exact(f, makes) && i <= n <= |args| && TranslateEach(f, args, i, n, pic).Some?
    ensures HasRun(TranslateEach(f, args, i, n, pic).value) <==> !NoneMakesRun(makes, args[i..n])
    decreases n - i
  {
    if i < n {
      var arg := args[i];
      var o := f(arg, pic, i);
      var pic' := if o.Emit? then o.pic else pic;
      EachRun(f, makes, args, i + 1, n, pic');
      One(arg);
      HasRunSplit(if o.Emit? then o.args else [arg], TranslateEach(f, args, i + 1, n, pic').value);
      assert args[i..n] == [arg] + args[i + 1..n];
      assert NoneMakesRun(makes, args[i..n]) <==> !makes(arg) && NoneMakesRun(makes, args[i + 1..n]);
    }
  }

  // ---------------------------------------------------------------- stage 2

  lemma FirstIs(args: seq<string>, f: string -> bool, i: nat, n: nat)
    requires i <= n <= |args| && (n < |args| ==> f(args[n])) && forall k :: i <= k < n ==> !f(args[k])
    ensures FirstFrom(args, f, i) == n
  {
  }

  /** Without a run switch in front, the post-switches go directly before the suffix. */
  lemma Stage2Places(ldc: string, front: seq<string>, suffix: seq<string>, postSwitches: seq<string>)
    requires !HasRun(front) && StartsProgram(suffix)
    ensures
      var with := [ldc] + front + suffix;
      InsertAt(with, FirstFrom(with, IsRunArg, 1), postSwitches) == [ldc] + front + postSwitches + suffix
  {
    var with := [ldc] + front + suffix;
    forall k | 1 <= k < 1 + |front| ensures !IsRunArg(with[k]) {
      assert with[k] in front;
    }
    FirstIs(with, IsRunArg, 1, 1 + |front|);
  }

  /** The arguments from the first run switch on. */
  function FromRun(args: seq<string>): seq<string> {
    args[FirstFrom(args, IsRunArg, 0)..]
  }

  predicate Commute(a: seq<string>, b: seq<string>) {
    a + b == b + a
  }

  lemma RunExists(args: seq<string>)
    requires HasRun(args)
    ensures FromRun(args) != [] && IsRunArg(FromRun(args)[0])
  {
    var arg :| arg in args && IsRunArg(arg);
    var k :| 0 <= k < |args| && args[k] == arg;
    assert FirstFrom(args, IsRunArg, 0) <= k;
  }

  /** Up to there, the actual order is the promised one. */
  lemma SameUpToRun(x: seq<string>, front: seq<string>, suffix: seq<string>, j: nat)
    requires AgreesToRun(x, front + suffix) && j < |front| && j <= FirstFrom(front, IsRunArg, 0)
    ensures j < |x| && x[j] == front[j]
  {
    var t := front + suffix;
    forall arg | arg in t[..j] ensures !IsRunArg(arg) {
      var k :| 0 <= k < j && t[..j][k] == arg;
      assert t[k] == front[k];
    }
    assert !HasRun(t[..j]) && t[j] == front[j];
  }

  /** The actual order has the first run switch where the promised one has it. */
  lemma SameFirstRun(x: seq<string>, front: seq<string>, suffix: seq<string>)
    requires HasRun(front) && AgreesToRun(x, front + suffix)
    ensures
      var m := FirstFrom(front, IsRunArg, 0);
      m < |front| && m < |x| && x[..m] == front[..m] && FirstFrom(x, IsRunArg, 0) == m
  {
    var m := FirstFrom(front, IsRunArg, 0);
    RunExists(front);
    SameUpToRun(x, front, suffix, m);
    forall k | 0 <= k <= m ensures k < |x| && x[k] == front[k] {
      SameUpToRun(x, front, suffix, k);
    }
    FirstOf(x, front, m);
  }

  lemma FirstOf(x: seq<string>, front: seq<string>, m: nat)
    requires m < |front| && m < |x| && m == FirstFrom(front, IsRunArg, 0)
    requires forall k :: 0 <= k <= m ==> x[k] == front[k]
    ensures x[..m] == front[..m] && FirstFrom(x, IsRunArg, 0) == m
  {
    forall k | 0 <= k < m ensures !IsRunArg(x[k]) {
      assert x[k] == front[k];
    }
    FirstIs(x, IsRunArg, 0, m);
  }

  lemma Cancel(a: seq<string>, b: seq<string>, c: seq<string>)
    ensures a + b == a + c <==> b == c
    ensures b + a == c + a <==> b == c
  {
    assert (a + b)[|a|..] == b && (a + c)[|a|..] == c;
    if b + a == c + a {
      assert |b| == |c| && (b + a)[..|b|] == b && (c + a)[..|c|] == c;
    }
  }

  /** With a run switch in front, the post-switches go before it. */
  lemma Stage2Splits(ldc: string, x: seq<string>, front: seq<string>, suffix: seq<string>, postSwitches: seq<string>)
    requires HasRun(front) && AgreesToRun(x, front + suffix)
    ensures
      var with := [ldc] + x;
      InsertAt(with, FirstFrom(with, IsRunArg, 1), postSwitches) == [ldc] + front + postSwitches + suffix <==>
      postSwitches + FromRun(x) == FromRun(front) + postSwitches + suffix
  {
    var with := [ldc] + x;
    var m := FirstFrom(front, IsRunArg, 0);
    SameFirstRun(x, front, suffix);
    forall k | 1 <= k < 1 + m ensures !IsRunArg(with[k]) {
      assert with[k] == x[k - 1];
    }
    FirstIs(with, IsRunArg, 1, 1 + m);
    SplitAt(ldc, x, front, suffix, postSwitches, m);
  }

  lemma SplitAt(ldc: string, x: seq<string>, front: seq<string>, suffix: seq<string>, postSwitches: seq<string>, m: nat)
    requires m <= |front| && m <= |x| && x[..m] == front[..m]
    ensures
      InsertAt([ldc] + x, 1 + m, postSwitches) == [ldc] + front + postSwitches + suffix <==>
      postSwitches + x[m..] == front[m..] + postSwitches + suffix
  {
    var p := [ldc] + front[..m];
    assert ([ldc] + x)[..1 + m] == p && ([ldc] + x)[1 + m..] == x[m..];
    Assoc(p, postSwitches, x[m..]);
    assert [ldc] + front == p + front[m..];
    Assoc(p, front[m..], postSwitches);
    Assoc(p, front[m..] + postSwitches, suffix);
    Cancel(p, postSwitches + x[m..], front[m..] + postSwitches + suffix);
  }

  /** So a first post-switch that is no run switch comes to stand where that run switch was promised to be. */
  lemma Stage2Displaces(ldc: string, x: seq<string>, front: seq<string>, suffix: seq<string>, postSwitches: seq<string>)
    requires HasRun(front) && AgreesToRun(x, front + suffix)
    requires postSwitches != [] && !IsRunArg(postSwitches[0])
    ensures
      var with := [ldc] + x;
      InsertAt(with, FirstFrom(with, IsRunArg, 1), postSwitches) != [ldc] + front + postSwitches + suffix
  {
    Stage2Splits(ldc, x, front, suffix, postSwitches);
    RunExists(front);
    assert (postSwitches + FromRun(x))[0] == postSwitches[0];
    assert (FromRun(front) + postSwitches + suffix)[0] == FromRun(front)[0];
  }

  /** If everything else is as promised, it makes no difference exactly if the post-switches commute with the arguments
      from that run switch on. */
  lemma Stage2Commutes(ldc: string, front: seq<string>, suffix: seq<string>, postSwitches: seq<string>)
    requires HasRun(front)
    ensures
      var with := [ldc] + (front + suffix);
      InsertAt(with, FirstFrom(with, IsRunArg, 1), postSwitches) == [ldc] + front + postSwitches + suffix <==>
      Commute(postSwitches, FromRun(front))
  {
    var x := front + suffix;
    Stage2Splits(ldc, x, front, suffix, postSwitches);
    SameFirstRun(x, front, suffix);
    assert FromRun(x) == FromRun(front) + suffix;
    Assoc(postSwitches, FromRun(front), suffix);
    Cancel(suffix, postSwitches + FromRun(front), FromRun(front) + postSwitches);
  }

  /** In general, for options that are passed on as y and were promised to be t: exactly if the post-switches in front of the
      one give the same as behind the other, from the first run switch on. */
  lemma Stage2General(ldc: string, switches: seq<string>, y: seq<string>, t: seq<string>, postSwitches: seq<string>,
                      suffix: seq<string>)
    requires AgreesToRun(y, t) && AgreesToRun(y + suffix, t + suffix) && (HasRun(switches) || HasRun(t))
    ensures
      var s := switches + ["-ldmd"];
      Stage2([ldc, "-ldmd"] + (y + suffix), switches, postSwitches) == Layout(ldc, switches, t, postSwitches, suffix) <==>
      postSwitches + FromRun(s + y) == FromRun(s + t) + postSwitches
  {
    var s := switches + ["-ldmd"];
    FrontRun(switches, t);
    AgreesJoined(s, y, t, suffix);
    SwitchesFirst(ldc, switches, y, suffix);
    Stage2Splits(ldc, s + y + suffix, s + t, suffix, postSwitches);
    PassedRun(s, y, t, suffix);
    CancelSuffix(postSwitches, FromRun(s + y), FromRun(s + t), suffix);
  }

  lemma AgreesJoined(s: seq<string>, y: seq<string>, t: seq<string>, suffix: seq<string>)
    requires AgreesToRun(y + suffix, t + suffix)
    ensures AgreesToRun(s + y + suffix, s + t + suffix)
  {
    AgreesBehind(s, y + suffix, t + suffix);
    Assoc(s, y, suffix);
    Assoc(s, t, suffix);
  }

  lemma SwitchesFirst(ldc: string, switches: seq<string>, y: seq<string>, suffix: seq<string>)
    ensures InsertAt([ldc, "-ldmd"] + (y + suffix), 1, switches) == [ldc] + (switches + ["-ldmd"] + y + suffix)
  {
  }

  lemma CancelSuffix(p: seq<string>, a: seq<string>, b: seq<string>, suffix: seq<string>)
    ensures p + (a + suffix) == b + p + suffix <==> p + a == b + p
  {
    Assoc(p, a, suffix);
    Cancel(suffix, p + a, b + p);
  }

  lemma PassedRun(s: seq<string>, y: seq<string>, t: seq<string>, suffix: seq<string>)
    requires AgreesToRun(y, t) && AgreesToRun(s + y + suffix, s + t + suffix) && HasRun(s + t)
    ensures FromRun(s + y + suffix) == FromRun(s + y) + suffix
  {
    AgreesBehind(s, y, t);
    assert s + t + [] == s + t;
    SameFirstRun(s + y, s + t, []);
    SameFirstRun(s + y + suffix, s + t, suffix);
  }

  /** Without post-switches, the second stage changes nothing behind the first. */
  lemma NoPostSwitches(ldc: string, switches: seq<string>, x: seq<string>, t: seq<string>, suffix: seq<string>)
    ensures Stage2([ldc, "-ldmd"] + x, switches, []) == Layout(ldc, switches, t, [], suffix) <==> x == t + suffix
  {
    var with := InsertAt([ldc, "-ldmd"] + x, 1, switches);
    var p := [ldc] + (switches + ["-ldmd"]);
    assert with == p + x;
    var n := FirstFrom(with, IsRunArg, 1);
    assert with[..n] + [] + with[n..] == with;
    assert Layout(ldc, switches, t, [], suffix) == p + (t + suffix);
    Cancel(p, x, t + suffix);
  }

  // ---------------------------------------------------------------- both stages

  lemma DflagsBeforeRun(prog: string, options: seq<string>, dflags: seq<string>, suffix: seq<string>)
    requires "-run" !in options && StartsProgram(suffix)
    ensures
      var user := [prog] + options + suffix;
      InsertAt(user, FirstFrom(user, s => s == "-run", 1), dflags) == [prog] + (options + dflags) + suffix
  {
    var user := [prog] + options + suffix;
    forall k | 1 <= k < 1 + |options| ensures user[k] != "-run" {
      assert user[k] in options;
    }
    FirstIs(user, s => s == "-run", 1, 1 + |options|);
  }

  /** Behind the first stage the promised order and the actual one agree up to a first run switch. */
  lemma AfterStage1(f: Translator, makes: string -> bool, prog: string, options: seq<string>, dflags: seq<string>,
                    suffix: seq<string>, ldc: string)
    requires Exact(f, makes) && (forall pic, i :: f("-run", pic, i).Run?)
    requires "-run" !in options && StartsProgram(suffix)
    requires TranslateEach(f, [prog] + (options + dflags) + suffix, 1, 1 + |options + dflags|, false).Some?
    ensures
      var t := TranslateEach(f, [prog] + (options + dflags) + suffix, 1, 1 + |options + dflags|, false).value;
      var s := Stage1(f, prog, options, dflags, suffix, ldc);
      && s.Some? && |s.value| >= 2 && s.value[..2] == [ldc, "-ldmd"]
      && (HasRun(t) <==> !NoneMakesRun(makes, options + dflags))
      && AgreesToRun(s.value[2..], t + suffix)
      && (!HasRun(t) || "-run" !in dflags ==> s.value[2..] == t + suffix)
      && (s.value[2..] == t + suffix <==>
            Untouched(f, [prog] + (options + dflags) + suffix, 1, 1 + |options + dflags|, false))
      && var y := TranslateFrom(f, [prog] + (options + dflags), 1, false);
         y.Some? && s.value[2..] == y.value + suffix && AgreesToRun(y.value, t)
  {
    var args, n := [prog] + (options + dflags) + suffix, 1 + |options + dflags|;
    DflagsBeforeRun(prog, options, dflags, suffix);
    assert args[n..] == suffix && args[1..n] == options + dflags;
    Stage1Each(f, makes, args, 1, n, false);
    Stage1Exactly(f, makes, args, 1, n, false);
    assert args[..n] == [prog] + (options + dflags);
    PassedAlone(f, makes, args, 1, n, false);
    PassedAgrees(f, makes, args, 1, n, false);
    EachRun(f, makes, args, 1, n, false);
    var x := TranslateFrom(f, args, 1, false).value;
    assert ([ldc, "-ldmd"] + x)[2..] == x;
  }

  lemma AfterStage2(ldc: string, switches: seq<string>, x: seq<string>, t: seq<string>, postSwitches: seq<string>, suffix: seq<string>)
    requires StartsProgram(suffix) && AgreesToRun(x, t + suffix) && (!HasRun(t) ==> x == t + suffix)
    ensures
      var parsed := Stage2([ldc, "-ldmd"] + x, switches, postSwitches);
      var layout := Layout(ldc, switches, t, postSwitches, suffix);
      && (!HasRun(switches) && !HasRun(t) ==> parsed == layout)
      && (postSwitches != [] && !IsRunArg(postSwitches[0]) ==> (parsed == layout <==> !HasRun(switches) && !HasRun(t)))
      && (postSwitches == [] ==> (parsed == layout <==> x == t + suffix))
      && (x == t + suffix ==>
            (parsed == layout <==>
             (!HasRun(switches) && !HasRun(t)) || Commute(postSwitches, FromRun(switches + ["-ldmd"] + t))))
  {
    var front := switches + ["-ldmd"] + t;
    FrontRun(switches, t);
    assert InsertAt([ldc, "-ldmd"] + x, 1, switches) == [ldc] + (switches + ["-ldmd"] + x);
    assert switches + ["-ldmd"] + (t + suffix) == front + suffix;
    if postSwitches == [] {
      NoPostSwitches(ldc, switches, x, t, suffix);
    }
    if !HasRun(front) {
      assert [ldc] + (switches + ["-ldmd"] + x) == [ldc] + front + suffix;
      Stage2Places(ldc, front, suffix, postSwitches);
    } else {
      if postSwitches != [] && !IsRunArg(postSwitches[0]) {
        AgreesBehind(switches + ["-ldmd"], x, t + suffix);
        Stage2Displaces(ldc, switches + ["-ldmd"] + x, front, suffix, postSwitches);
      }
      if x == t + suffix {
        Stage2Commutes(ldc, front, suffix, postSwitches);
      }
    }
  }

  /** For a command line that ldmd translates, LDC parses the executable, the configuration's switches, `-ldmd`, the
      translated options of the user and of DFLAGS, the post-switches, and then the untouched suffix from the user's
      `-run` on, if no configuration switch is a run switch and no option becomes one. With a first post-switch that is
      not a run switch itself, it does so if and only if. For all others: exactly if that holds or the post-switches in front
      of the options as ldmd passes them on give the same as behind the options as promised, from the first run switch on.
      Without a `-run` in DFLAGS this means that they commute; without post-switches, that nothing behind a `-run` in DFLAGS
      needs translation. */
  lemma SuffixExact(f: Translator, makes: string -> bool, prog: string, options: seq<string>, dflags: seq<string>,
                    suffix: seq<string>, ldc: string, switches: seq<string>, postSwitches: seq<string>)
    requires Exact(f, makes) && (forall pic, i :: f("-run", pic, i).Run?)
    requires "-run" !in options && StartsProgram(suffix)
    requires TranslateEach(f, [prog] + (options + dflags) + suffix, 1, 1 + |options + dflags|, false).Some?
    ensures
      var args, n := [prog] + (options + dflags) + suffix, 1 + |options + dflags|;
      var t := TranslateEach(f, args, 1, n, false).value;
      var s := Stage1(f, prog, options, dflags, suffix, ldc);
      s.Some? && s.value != [] &&
      var holds := Stage2(s.value, switches, postSwitches) == Layout(ldc, switches, t, postSwitches, suffix);
      var kept := !HasRun(switches) && NoneMakesRun(makes, options + dflags);
      var y := TranslateFrom(f, [prog] + (options + dflags), 1, false);
      && (kept ==> holds)
      && (postSwitches != [] && !IsRunArg(postSwitches[0]) ==> (holds <==> kept))
      && y.Some?
      && (holds <==> kept || postSwitches + FromRun(switches + ["-ldmd"] + y.value) ==
                             FromRun(switches + ["-ldmd"] + t) + postSwitches)
      && ("-run" !in dflags ==> (holds <==> kept || Commute(postSwitches, FromRun(switches + ["-ldmd"] + t))))
      && (postSwitches == [] ==> (holds <==> Untouched(f, args, 1, n, false)))
  {
    AfterStage1(f, makes, prog, options, dflags, suffix, ldc);
    var t := TranslateEach(f, [prog] + (options + dflags) + suffix, 1, 1 + |options + dflags|, false).value;
    var s := Stage1(f, prog, options, dflags, suffix, ldc).value;
    assert s == [ldc, "-ldmd"] + s[2..];
    AfterStage2(ldc, switches, s[2..], t, postSwitches, suffix);
    if HasRun(switches) || HasRun(t) {
      Stage2General(ldc, switches, TranslateFrom(f, [prog] + (options + dflags), 1, false).value, t, postSwitches, suffix);
    }
  }

  lemma FrontRun(switches: seq<string>, t: seq<string>)
    ensures HasRun(switches + ["-ldmd"] + t) <==> HasRun(switches) || HasRun(t)
  {
    One("-ldmd");
    HasRunSplit(switches + ["-ldmd"], t);
    HasRunSplit(switches, ["-ldmd"]);
  }

  /** The theorem applies to ldmd: `-run`, `--run`, `-Crun`, `-C-run`, `-gdwarf=-run` and `-gdwarf=--run` are exactly
      the options that become run switches. */
  lemma LdmdIsExact(env: Env)
    ensures Exact(TranslatorFor(env), p => p == "-run" || p in RUN_PRODUCERS)
    ensures forall pic, i :: TranslatorFor(env)("-run", pic, i).Run?
  {
    var f := TranslatorFor(env);
    forall p, pic, i
      ensures match f(p, pic, i)
        case Run => p == "-run"
        case Exit => true
        case Emit(args, _) => p != "-run" && (HasRun(args) <==> (p == "-run" || p in RUN_PRODUCERS))
    {
      RunSwitchesExact(p, pic, env.beyond(i), env.longMax);
    }
    forall pic, i ensures f("-run", pic, i).Run? {
      OptionRun("-run", pic, env.beyond(i), env.longMax);
    }
  }

  /** No option is a run switch or becomes one. */
  predicate NoneProduces(args: seq<string>) {
    forall arg <- args :: arg != "-run" && arg !in RUN_PRODUCERS
  }

  /** For ldmd's own translation of a whole command line: with a first post-switch that is not a run switch, the order is
      the promised one exactly if the user and DFLAGS give none of the six options and the configuration no run switch. */
  lemma LdmdSuffixExact(env: Env, prog: string, options: seq<string>, dflags: seq<string>, suffix: seq<string>, ldc: string,
                        switches: seq<string>, postSwitches: seq<string>)
    requires "-run" !in options && StartsProgram(suffix)
    requires TranslateEach(TranslatorFor(env), [prog] + (options + dflags) + suffix, 1, 1 + |options + dflags|, false).Some?
    ensures
      var f := TranslatorFor(env);
      var t := TranslateEach(f, [prog] + (options + dflags) + suffix, 1, 1 + |options + dflags|, false).value;
      var s := Stage1(f, prog, options, dflags, suffix, ldc);
      s.Some? && s.value != [] &&
      var holds := Stage2(s.value, switches, postSwitches) == Layout(ldc, switches, t, postSwitches, suffix);
      var kept := !HasRun(switches) && NoneProduces(options + dflags);
      && (kept ==> holds)
      && (postSwitches != [] && !IsRunArg(postSwitches[0]) ==> (holds <==> kept))
  {
    var makes := p => p == "-run" || p in RUN_PRODUCERS;
    LdmdIsExact(env);
    assert NoneMakesRun(makes, options + dflags) <==> NoneProduces(options + dflags);
    SuffixExact(TranslatorFor(env), makes, prog, options, dflags, suffix, ldc, switches, postSwitches);
  }

  /** `ldmd2 <producer> -run a.d` with one post-switch: each of the five options gets it in front of itself. */
  lemma ProducerDisplaces(env: Env, prog: string, option: string, ldc: string, postSwitch: string)
    requires option in RUN_PRODUCERS && !IsRunArg(postSwitch)
    ensures
      var f, suffix := TranslatorFor(env), ["-run", "a.d"];
      var t := TranslateEach(f, [prog] + ([option] + []) + suffix, 1, 2, false);
      var s := Stage1(f, prog, [option], [], suffix, ldc);
      && t.Some? && s.Some? && s.value != []
      && Stage2(s.value, [], [postSwitch]) != Layout(ldc, [], t.value, [postSwitch], suffix)
  {
    var args := [prog] + ([option] + []) + ["-run", "a.d"];
    RunSwitchesExact(option, false, env.beyond(1), env.longMax);
    assert args[1] == option;
    assert TranslateEach(TranslatorFor(env), args, 2, 2, TranslatorFor(env)(option, false, 1).pic) == Some([]);
    assert option in [option] + [] && !NoneProduces([option] + []);
    LdmdSuffixExact(env, prog, [option], [], ["-run", "a.d"], ldc, [], [postSwitch]);
  }

  /** `ldmd2 --run -run a.d`: the post-switch is put before `--run`. */
  lemma LongRunDisplaced(env: Env, prog: string, ldc: string, postSwitch: string)
    ensures
      var s := Stage1(TranslatorFor(env), prog, ["--run"], [], ["-run", "a.d"], ldc);
      s == Some([ldc, "-ldmd", "--run", "-run", "a.d"]) &&
      Stage2(s.value, [], [postSwitch]) == [ldc, "-ldmd", postSwitch, "--run", "-run", "a.d"]
  {
    var f, suffix := TranslatorFor(env), ["-run", "a.d"];
    var args := [prog] + (["--run"] + []) + suffix;
    LongRunStays(env);
    LdmdIsExact(env);
    assert TranslateEach(f, args, 2, 2, false) == Some([]);
    assert TranslateEach(f, args, 1, 2, false) == Some(["--run"] + []);
    AfterStage1(f, p => p == "-run" || p in RUN_PRODUCERS, prog, ["--run"], [], suffix, ldc);
    var s := Stage1(f, prog, ["--run"], [], suffix, ldc).value;
    assert s == s[..2] + s[2..];
    assert s == [ldc, "-ldmd", "--run", "-run", "a.d"];
    InsertedBeforeRun(ldc, postSwitch);
  }

  lemma InsertedBeforeRun(ldc: string, postSwitch: string)
    ensures Stage2([ldc, "-ldmd", "--run", "-run", "a.d"], [], [postSwitch]) ==
      [ldc, "-ldmd", postSwitch, "--run", "-run", "a.d"]
  {
    var with := [ldc, "-ldmd", "--run", "-run", "a.d"];
    assert InsertAt(with, 1, []) == with;
    FirstIs(with, IsRunArg, 1, 2);
  }

  lemma LongRunStays(env: Env)
    ensures TranslatorFor(env)("--run", false, 1) == Emit(["--run"], false)
  {
    LastNotTaken("--run", false, env.beyond(1), env.longMax);
  }
}
