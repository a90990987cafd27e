/** Whole argument lists in ldmd: which arguments end it, in which order the others are passed on, and that `-fPIC` is
    passed on once, however often it is given (driver/ldmd.cpp). */
module LdmdLists {

  import opened CStrings
  import opened Common
  import opened Ldmd
  import opened LdmdTable

  /** The outcome with the flag raised. */
  function Raised(r: Outcome): Outcome {
    if r.Emit? then Emit(r.args, true) else r
  }

  /** Whether an option of a group depends on the flag, or changes it. */
  predicate FlagKept(off: Option<Outcome>, on: Option<Outcome>) {
    && (off.None? <==> on.None?)
    && (off.Some? ==> on.value == Raised(off.value) && (off.value.Emit? ==> !off.value.pic))
  }

  lemma ChecksKept(p: string)
    requires p != "" && p[0] == '-'
    ensures FlagKept(TranslateChecks(p, false), TranslateChecks(p, true))
  {
  }

  lemma ColorKept(p: string)
    requires p != "" && p[0] == '-'
    ensures FlagKept(TranslateColor(p, false), TranslateColor(p, true))
  {
  }

  lemma LinkageKept(p: string)
    requires p != "" && p[0] == '-' && p != "-fPIC"
    ensures FlagKept(TranslateLinkage(p, false), TranslateLinkage(p, true))
  {
    Whole(p, "fPIC");
    assert "-" + "fPIC" == "-fPIC";
  }

  lemma DebugInfoKept(p: string)
    requires p != "" && p[0] == '-'
    ensures FlagKept(TranslateDebugInfo(p, false), TranslateDebugInfo(p, true))
  {
  }

  lemma OutputKept(p: string)
    requires p != "" && p[0] == '-'
    ensures FlagKept(TranslateOutput(p, false), TranslateOutput(p, true))
  {
  }

  lemma TargetKept(p: string, beyond: string)
    requires p != "" && p[0] == '-'
    ensures FlagKept(TranslateTarget(p, false, beyond), TranslateTarget(p, true, beyond))
  {
  }

  lemma CodegenKept(p: string)
    requires p != "" && p[0] == '-'
    ensures FlagKept(TranslateCodegen(p, false), TranslateCodegen(p, true))
  {
  }

  lemma LevelsKept(p: string, longMax: nat)
    requires p != "" && p[0] == '-'
    ensures FlagKept(TranslateLevels(p, false, longMax), TranslateLevels(p, true, longMax))
  {
  }

  lemma LastKept(p: string)
    requires p != "" && p[0] == '-'
    ensures FlagKept(Some(TranslateLast(p, false)), Some(TranslateLast(p, true)))
  {
  }

  /** No other argument depends on whether `-fPIC` was seen, or makes it seen. */
  lemma OthersKept(p: string, beyond: string, longMax: nat)
    requires p != "-fPIC"
    ensures
      var r := TranslateArg(p, false, beyond, longMax);
      TranslateArg(p, true, beyond, longMax) == Raised(r) && (r.Emit? ==> !r.pic)
  {
    if p != "" && p[0] == '-' {
      ChecksKept(p);
      ColorKept(p);
      LinkageKept(p);
      DebugInfoKept(p);
      OutputKept(p);
      TargetKept(p, beyond);
      CodegenKept(p);
      LevelsKept(p, longMax);
      LastKept(p);
    }
  }

  lemma Given(beyond: string, longMax: nat, pic: bool)
    ensures TranslateArg("-fPIC", pic, beyond, longMax) == Emit(if pic then [] else ["-relocation-model=pic"], true)
    ensures TranslateArg("-quiet", pic, beyond, longMax) == Emit([], pic)
  {
    OptionsF("-fPIC", pic, beyond, longMax);
    OptionsQ("-quiet", pic, beyond, longMax);
  }

  /** Only `-run` starts the arguments of the program. */
  lemma RunOnly(p: string, pic: bool, beyond: string, longMax: nat)
    ensures TranslateArg(p, pic, beyond, longMax).Run? ==> p == "-run"
  {
    if p != "" && p[0] == '-' {
      Whole(p, "run");
      assert "-" + "run" == "-run";
      NoGroupRuns(p, pic, beyond, longMax);
    }
  }

  lemma NoGroupRuns(p: string, pic: bool, beyond: string, longMax: nat)
    requires p != "" && p[0] == '-'
    ensures EarlyGroups(p, pic).Some? ==> !EarlyGroups(p, pic).value.Run?
    ensures LateGroups(p, pic, beyond, longMax).Some? ==> !LateGroups(p, pic, beyond, longMax).value.Run?
  {
    ChecksDoNotRun(p, pic);
    LinkageDoesNotRun(p, pic);
    OutputDoesNotRun(p, pic, beyond);
    CodegenDoesNotRun(p, pic, longMax);
  }

  predicate DoesNotRun(t: Option<Outcome>) {
    t.Some? ==> !t.value.Run?
  }

  lemma ChecksDoNotRun(p: string, pic: bool)
    requires p != "" && p[0] == '-'
    ensures DoesNotRun(TranslateChecks(p, pic)) && DoesNotRun(TranslateColor(p, pic))
  {
  }

  lemma LinkageDoesNotRun(p: string, pic: bool)
    requires p != "" && p[0] == '-'
    ensures DoesNotRun(TranslateLinkage(p, pic)) && DoesNotRun(TranslateDebugInfo(p, pic))
  {
  }

  lemma OutputDoesNotRun(p: string, pic: bool, beyond: string)
    requires p != "" && p[0] == '-'
    ensures DoesNotRun(TranslateOutput(p, pic)) && DoesNotRun(TranslateTarget(p, pic, beyond))
  {
  }

  lemma CodegenDoesNotRun(p: string, pic: bool, longMax: nat)
    requires p != "" && p[0] == '-'
    ensures DoesNotRun(TranslateCodegen(p, pic)) && DoesNotRun(TranslateLevels(p, pic, longMax))
  {
  }

  /** Behind an argument in front of `-run`, the flag is up if it was, or if the argument was `-fPIC`. */
  lemma FlagBehind(env: Env, p: string, i: nat, pic: bool)
    requires p != "-run"
    ensures
      var r := TranslatorFor(env)(p, pic, i);
      r.Exit? || (r.Emit? && r.pic == (pic || p == "-fPIC"))
  {
    RunOnly(p, pic, env.beyond(i), env.longMax);
    if p == "-fPIC" {
      Given(env.beyond(i), env.longMax, pic);
    } else {
      OthersKept(p, env.beyond(i), env.longMax);
    }
  }

  lemma {:induction false} SameBehind(f: Translator, args: seq<string>, more: seq<string>, i: nat, pic: bool)
    requires |args| == |more| && i <= |args| && args[i..] == more[i..]
    ensures TranslateFrom(f, args, i, pic) == TranslateFrom(f, more, i, pic)
    decreases |args| - i
  {
    if i < |args| {
      assert args[i] == args[i..][0] && more[i] == more[i..][0];
      assert args[i + 1..] == args[i..][1..] && more[i + 1..] == more[i..][1..];
      if f(args[i], pic, i).Emit? {
        SameBehind(f, args, more, i + 1, f(args[i], pic, i).pic);
      }
    }
  }

  /** A first `-fPIC` selects the relocation model; any further one in front of `-run` is like `-quiet`, which LDC is not
      told of. */
  lemma {:induction false} FurtherPicIgnored(env: Env, args: seq<string>, i: nat, pic: bool, k: nat)
    requires i <= k < |args| && args[k] == "-fPIC" && "-run" !in args[i..k]
    requires pic || "-fPIC" in args[i..k]
    ensures TranslateFrom(TranslatorFor(env), args, i, pic) ==
      TranslateFrom(TranslatorFor(env), args[k := "-quiet"], i, pic)
    decreases k - i
  {
    var f, more := TranslatorFor(env), args[k := "-quiet"];
    if i == k {
      Given(env.beyond(i), env.longMax, pic);
      SameBehind(f, args, more, i + 1, pic);
    } else {
      assert args[i..k] == [args[i]] + args[i + 1..k] && more[i] == args[i];
      FlagBehind(env, args[i], i, pic);
      var r := f(args[i], pic, i);
      if r.Emit? {
        FurtherPicIgnored(env, args, i + 1, r.pic, k);
      }
    }
  }

  // ---------------------------------------------------------------- which arguments end ldmd

  lemma Ends(p: string, pic: bool, beyond: string, longMax: nat)
    requires '\0' !in p
    ensures TranslateArg(p, pic, beyond, longMax).Exit? <==>
      p == "-gt" || p == "-o" || "-os=" <= p || p == "-h" || p == "--help" || p == "--version" || "-man" <= p
  {
    if p == "" || p[0] != '-' {
      NoOption(p, pic, beyond, longMax);
    } else if |p| == 1 || p[1] == '-' {
      OptionsDash(p, pic, beyond, longMax);
    } else if p[1] == 'g' {
      OptionsG(p, pic, beyond, longMax);
    } else if p[1] == 'o' {
      OptionsO(p, pic, beyond, longMax);
    } else if p[1] == 'h' {
      OptionsH(p, pic, beyond, longMax);
    } else if p[1] == 'm' {
      OptionsM(p, pic, beyond, longMax);
      Apart();
    } else {
      NotEnding(p, pic, beyond, longMax);
    }
  }

  lemma Apart()
    ensures !("-man" <= "-map") && !("-man" <= "-multiobj") && !("-man" <= "-m32mscoff") && !("-man" <= "-mcpu=?")
    ensures !("-man" <= "-mcpu=h") && !("-man" <= "-mcpu=help") && !("-man" <= "-mcpu=baseline")
    ensures !("-man" <= "-mcpu=avx") && !("-man" <= "-mcpu=avx2")
  {
    assert "-man"[2] == 'a' && "-man"[3] == 'n' && "-map"[3] == 'p';
  }

  /** No option with another letter ends ldmd. */
  lemma NotEnding(p: string, pic: bool, beyond: string, longMax: nat)
    requires |p| >= 2 && p[0] == '-' && p[1] != '-' && p[1] != 'g' && p[1] != 'o' && p[1] != 'h' && p[1] != 'm'
    ensures !TranslateArg(p, pic, beyond, longMax).Exit?
  {
    NoExitEarly(p, pic);
    NoExitLate(p, pic, beyond);
    NoExitLater(p, pic, longMax);
    NoExitLast(p, pic);
    NoneEnds(p, pic, beyond, longMax);
  }

  predicate DoesNotEnd(t: Option<Outcome>) {
    t.Some? ==> !t.value.Exit?
  }

  lemma NoneEnds(p: string, pic: bool, beyond: string, longMax: nat)
    requires p != "" && p[0] == '-' && DoesNotEnd(EarlyGroups(p, pic)) && DoesNotEnd(Some(TranslateLast(p, pic)))
    requires DoesNotEnd(TranslateOutput(p, pic)) && DoesNotEnd(TranslateTarget(p, pic, beyond))
    requires DoesNotEnd(TranslateCodegen(p, pic)) && DoesNotEnd(TranslateLevels(p, pic, longMax))
    ensures !TranslateArg(p, pic, beyond, longMax).Exit?
  {
  }

  lemma NoExitEarly(p: string, pic: bool)
    requires |p| >= 2 && p[0] == '-' && p[1] != 'g'
    ensures DoesNotEnd(EarlyGroups(p, pic))
  {
    DebugInfoLetters(p, pic);
    NoExitChecks(p, pic);
  }

  lemma NoExitChecks(p: string, pic: bool)
    requires |p| >= 2 && p[0] == '-'
    ensures DoesNotEnd(TranslateChecks(p, pic)) && DoesNotEnd(TranslateColor(p, pic)) && DoesNotEnd(TranslateLinkage(p, pic))
  {
  }

  lemma NoExitLate(p: string, pic: bool, beyond: string)
    requires |p| >= 2 && p[0] == '-' && p[1] != 'o'
    ensures DoesNotEnd(TranslateOutput(p, pic)) && DoesNotEnd(TranslateTarget(p, pic, beyond))
  {
    OtherLetter(p);
  }

  lemma NoExitLater(p: string, pic: bool, longMax: nat)
    requires p != "" && p[0] == '-'
    ensures DoesNotEnd(TranslateCodegen(p, pic)) && DoesNotEnd(TranslateLevels(p, pic, longMax))
  {
  }

  lemma NoExitLast(p: string, pic: bool)
    requires |p| >= 2 && p[0] == '-' && p[1] != '-' && p[1] != 'h' && p[1] != 'm'
    ensures DoesNotEnd(Some(TranslateLast(p, pic)))
  {
    OtherLetter(p);
  }

  ghost predicate CStringArgs(args: seq<string>) {
    forall arg <- args :: '\0' !in arg
  }

  /** ldmd ends instead of calling LDC exactly if one of these options stands in front of a first `-run`. */
  lemma EndsExactly(env: Env, args: seq<string>, i: nat, pic: bool)
    requires i <= |args| && CStringArgs(args)
    ensures TranslateFrom(TranslatorFor(env), args, i, pic).None? <==>
      exists k :: i <= k < |args| && "-run" !in args[i..k] &&
        (args[k] == "-gt" || args[k] == "-o" || "-os=" <= args[k] || args[k] == "-h" || args[k] == "--help" ||
         args[k] == "--version" || "-man" <= args[k])
  {
    EndsSomewhere(env, args, i, pic);
  }

  ghost predicate EndsFrom(args: seq<string>, i: nat)
    requires i <= |args|
  {
    exists k :: i <= k < |args| && "-run" !in args[i..k] && EndsLdmd(args[k])
  }

  lemma {:induction false} EndsSomewhere(env: Env, args: seq<string>, i: nat, pic: bool)
    requires i <= |args| && CStringArgs(args)
    ensures TranslateFrom(TranslatorFor(env), args, i, pic).None? <==> EndsFrom(args, i)
    decreases |args| - i
  {
    if i < |args| {
      if args[i] == "-run" {
        Running(env, i, pic);
        NothingBehindRun(args, i);
      } else {
        EndsHere(env, args, i, pic);
        FlagBehind(env, args[i], i, pic);
        EndsSomewhere(env, args, i + 1, pic || args[i] == "-fPIC");
        EndsBehind(args, i);
      }
    }
  }

  lemma EndsHere(env: Env, args: seq<string>, i: nat, pic: bool)
    requires i < |args| && CStringArgs(args)
    ensures TranslatorFor(env)(args[i], pic, i).Exit? <==> EndsLdmd(args[i])
  {
    assert args[i] in args;
    Ends(args[i], pic, env.beyond(i), env.longMax);
  }

  predicate EndsLdmd(p: string) {
    p == "-gt" || p == "-o" || "-os=" <= p || p == "-h" || p == "--help" || p == "--version" || "-man" <= p
  }

  lemma NothingBehindRun(args: seq<string>, i: nat)
    requires i < |args| && args[i] == "-run" && !EndsLdmd("-run")
    ensures !EndsFrom(args, i)
  {
    forall k | i < k < |args| ensures "-run" in args[i..k] {
      assert args[i..k][0] == args[i];
    }
  }

  lemma EndsBehind(args: seq<string>, i: nat)
    requires i < |args| && args[i] != "-run"
    ensures EndsFrom(args, i) <==> EndsLdmd(args[i]) || EndsFrom(args, i + 1)
  {
    forall k | i < k <= |args| ensures "-run" in args[i..k] <==> "-run" in args[i + 1..k] {
      assert args[i..k] == [args[i]] + args[i + 1..k];
    }
    assert args[i..i] == [];
  }

  lemma Running(env: Env, i: nat, pic: bool)
    ensures TranslatorFor(env)("-run", pic, i).Run? && !EndsLdmd("-run")
  {
    OptionsR("-run", pic, env.beyond(i), env.longMax);
    assert "-os="[1] == 'o' && "-man"[1] == 'm';
  }

  // ---------------------------------------------------------------- the order

  /** What stands in front is passed on in front, and what stands behind it is translated as if it stood there alone, up to
      the flag; from `-run` on everything is copied. */
  lemma {:induction false} InOrder(env: Env, args: seq<string>, i: nat, k: nat, pic: bool)
    requires i <= k <= |args| && "-run" !in args[i..k]
    requires TranslateFrom(TranslatorFor(env), args, i, pic).Some?
    ensures
      var f := TranslatorFor(env);
      var behind := TranslateFrom(f, args, k, pic || "-fPIC" in args[i..k]);
      && TranslateFrom(f, args[..k], i, pic).Some? && behind.Some?
      && TranslateFrom(f, args, i, pic).value == TranslateFrom(f, args[..k], i, pic).value + behind.value
    decreases k - i
  {
    var f := TranslatorFor(env);
    if i == k {
      assert TranslateFrom(f, args[..k], k, pic) == Some([]);
    } else {
      assert args[i..k] == [args[i]] + args[i + 1..k] && args[..k][i] == args[i];
      FlagBehind(env, args[i], i, pic);
      var pic' := pic || args[i] == "-fPIC";
      InOrder(env, args, i + 1, k, pic');
      Assoc(f(args[i], pic, i).args, TranslateFrom(f, args[..k], i + 1, pic').value,
            TranslateFrom(f, args, k, pic || "-fPIC" in args[i..k]).value);
    }
  }

  /** One argument, the end of the list, and `-run`. */
  lemma OneByOne(env: Env, args: seq<string>, i: nat, pic: bool)
    requires i <= |args|
    ensures
      var f := TranslatorFor(env);
      var r := TranslateFrom(f, args, i, pic);
      if i == |args| then r == Some([])
      else if args[i] == "-run" then r == Some(args[i..])
      else
        var o := TranslateArg(args[i], pic, env.beyond(i), env.longMax);
        && (o.Exit? ==> r == None)
        && (o.Emit? && i + 1 == |args| ==> r == Some(o.args))
  {
    if i < |args| {
      if args[i] == "-run" {
        Running(env, i, pic);
      } else {
        FlagBehind(env, args[i], i, pic);
        var out := TranslateArg(args[i], pic, env.beyond(i), env.longMax);
        assert out.Emit? ==> out.args + [] == out.args;
      }
    }
  }
}
