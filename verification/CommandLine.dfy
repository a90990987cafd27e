/** The way of an argument through ldmd and LDC's configuration file (driver/ldmd.cpp, driver/configfile.cpp,
    driver/args.cpp): the arguments behind the user's `-run` must reach the program untouched. */
module CommandLine {

  import opened CStrings
  import opened Common
  import opened Ldmd

  /** `args::isRunArg` */
  predicate IsRunArg(arg: string) {
    arg == "-run" || arg == "--run"
  }

  /** Inserts the configuration's switches before all others, and its post-switches before a first run switch. */
  method ExtendCommandLine(args: seq<string>, switches: seq<string>, postSwitches: seq<string>) returns (r: seq<string>)
    requires args != []
    ensures
      var with := InsertAt(args, 1, switches);
      r == InsertAt(with, FirstFrom(with, IsRunArg, 1), postSwitches)
  {
    r := args[..1] + switches + args[1..];
    var runIndex := FindRun(r, IsRunArg);
    r := if runIndex == 0 then r + postSwitches else r[..runIndex] + postSwitches + r[runIndex..];
  }

  // ---------------------------------------------------------------- which options become run switches

  predicate HasRun(args: seq<string>) {
    exists arg <- args :: IsRunArg(arg)
  }

  /** The options that ldmd does not take for `-run`, but that it translates to a run switch. */
  const RUN_PRODUCERS: seq<string> := ["--run", "-Crun", "-C-run", "-gdwarf=-run", "-gdwarf=--run"]

  /** What an option of a group becomes contains a run switch exactly for the given options. */
  predicate RunsOnly(t: Option<Outcome>, isProducer: bool) {
    match t
    case Some(Emit(args, _)) => HasRun(args) <==> isProducer
    case Some(Exit) => !isProducer
    case Some(Run) => false
    case None => !isProducer
  }

  lemma ChecksRun(p: string, pic: bool)
    requires p != "" && p[0] == '-'
    ensures RunsOnly(TranslateChecks(p, pic), false)
  {
    if StartsAt(p, 1, "check=") {
      assert p[1] == p[1..][0] == 'c';
      CheckRun(p[7..]);
    }
  }

  lemma CheckRun(arg: string)
    ensures TranslateCheck(arg).Some? ==> !HasRun(TranslateCheck(arg).value)
  {
  }

  lemma ColorRun(p: string, pic: bool)
    requires p != "" && p[0] == '-'
    ensures RunsOnly(TranslateColor(p, pic), false)
  {
    if StartsAt(p, 1, "color") {
      assert p[1] == p[1..][0] == 'c';
    }
  }

  lemma LinkageRun(p: string, pic: bool)
    requires p != "" && p[0] == '-'
    ensures RunsOnly(TranslateLinkage(p, pic), false)
  {
  }

  lemma DebugInfoRun(p: string, pic: bool)
    requires p != "" && p[0] == '-'
    ensures RunsOnly(TranslateDebugInfo(p, pic), p == "-gdwarf=-run" || p == "-gdwarf=--run")
  {
    assert p == "-" + p[1..];
    if StartsAt(p, 1, "gdwarf=") {
      assert p == "-gdwarf=" + p[8..];
      assert p[8..] in ["-gdwarf", "-dwarf-version", p[8..]];
    }
  }

  lemma OutputRun(p: string, pic: bool)
    requires p != "" && p[0] == '-'
    ensures RunsOnly(TranslateOutput(p, pic), false)
  {
    if StartsAt(p, 1, "profile") {
      assert p[1] == p[1..][0] == 'p';
    }
  }

  lemma TargetRun(p: string, pic: bool, beyond: string)
    requires p != "" && p[0] == '-'
    ensures RunsOnly(TranslateTarget(p, pic, beyond), false)
  {
    if StartsAt(p, 1, "verrors") {
      assert p[1] == p[1..][0] == 'v';
    } else if StartsAt(p, 1, "mcpu=") {
      assert p[1] == p[1..][0] == 'm';
    }
  }

  lemma CodegenRun(p: string, pic: bool)
    requires p != "" && p[0] == '-'
    ensures RunsOnly(TranslateCodegen(p, pic), false)
  {
    if EqualsAt(p, 1, "lib") {
      assert p[1] == p[1..][0] == 'l';
    }
  }

  lemma LevelsRun(p: string, pic: bool, longMax: nat)
    requires p != "" && p[0] == '-'
    ensures RunsOnly(TranslateLevels(p, pic, longMax), false)
  {
    if StartsAt(p, 1, "debug") {
      assert p[1] == p[1..][0] == 'd';
    } else if StartsAt(p, 1, "version") {
      assert p[1] == p[1..][0] == 'v';
    }
  }

  lemma LastRun(p: string, pic: bool)
    requires p != "" && p[0] == '-'
    ensures TranslateLast(p, pic).Run? <==> p == "-run"
    ensures p != "-run" ==> RunsOnly(Some(TranslateLast(p, pic)), p == "--run" || p == "-Crun" || p == "-C-run")
  {
    assert p == "-" + p[1..];
    assert p[1..] == "run" ==> p == "-run";
    if |p| >= 2 && p[1] == 'C' {
      assert p == "-C" + p[2..];
      assert p[2..] == "run" ==> p == "-Crun";
      assert p[2..] == "-run" ==> p == "-C-run";
      RunBehindDash(p[2..]);
    }
    One(p);
  }

  lemma One(x: string)
    ensures HasRun([x]) <==> IsRunArg(x)
  {
    assert x in [x];
  }

  lemma RunBehindDash(rest: string)
    ensures HasRun(["-" + rest]) <==> rest == "run" || rest == "-run"
  {
    One("-" + rest);
    assert ("-" + rest)[1..] == rest;
    assert "-run"[1..] == "run" && "--run"[1..] == "-run";
  }

  /** A run switch, or an option that the last group makes one, is not taken by an earlier group. */
  lemma LastNotTaken(p: string, pic: bool, beyond: string, longMax: nat)
    requires p == "-run" || p == "--run" || p == "-Crun" || p == "-C-run"
    ensures EarlyGroups(p, pic).None? && LateGroups(p, pic, beyond, longMax).None?
  {
    assert p[1..][0] in "r-C";
    EarlyNotTaken(p, pic);
    OutputNotTaken(p, pic, beyond);
    CodegenNotTaken(p, pic, longMax);
  }

  lemma EarlyNotTaken(p: string, pic: bool)
    requires |p| >= 4 && p[0] == '-' && p[1..][0] in "r-C"
    ensures EarlyGroups(p, pic).None?
  {
    var q := p[1..];
    assert forall w: string :: w != "" && w <= q ==> w[0] == q[0];
  }

  lemma OutputNotTaken(p: string, pic: bool, beyond: string)
    requires |p| >= 4 && p[0] == '-' && p[1..][0] in "r-C"
    ensures TranslateOutput(p, pic).None? && TranslateTarget(p, pic, beyond).None?
  {
    var q := p[1..];
    assert forall w: string :: w != "" && w <= q ==> w[0] == q[0];
  }

  lemma CodegenNotTaken(p: string, pic: bool, longMax: nat)
    requires |p| >= 4 && p[0] == '-' && p[1..][0] in "r-C"
    ensures TranslateCodegen(p, pic).None? && TranslateLevels(p, pic, longMax).None?
  {
    var q := p[1..];
    assert forall w: string :: w != "" && w <= q ==> w[0] == q[0];
  }

  lemma DwarfNotTaken(p: string, pic: bool)
    requires p == "-gdwarf=-run" || p == "-gdwarf=--run"
    ensures TranslateChecks(p, pic).None? && TranslateColor(p, pic).None? && TranslateLinkage(p, pic).None?
    ensures TranslateDebugInfo(p, pic).Some?
  {
    assert p[1..] == "gdwarf=" + p[8..];
    assert p[1..][0] == 'g';
  }

  /** The first group that takes an option decides: dwarf tells that only the fourth makes it a run switch. */
  lemma FirstGroupDecides(a: Option<Outcome>, b: Option<Outcome>, c: Option<Outcome>, d: Option<Outcome>, dwarf: bool)
    requires !dwarf ==> RunsOnly(a, false) && RunsOnly(b, false) && RunsOnly(c, false) && RunsOnly(d, false)
    requires dwarf ==> a.None? && b.None? && c.None? && d.Some? && RunsOnly(d, true)
    ensures RunsOnly(OrElse(a, OrElse(b, OrElse(c, d))), dwarf)
  {
  }

  lemma LaterGroupsDecide(a: Option<Outcome>, b: Option<Outcome>, c: Option<Outcome>, d: Option<Outcome>)
    requires RunsOnly(a, false) && RunsOnly(b, false) && RunsOnly(c, false) && RunsOnly(d, false)
    ensures RunsOnly(OrElse(a, OrElse(b, OrElse(c, d))), false)
  {
  }

  lemma EarlyGroupsRun(p: string, pic: bool)
    requires p != "" && p[0] == '-'
    ensures RunsOnly(EarlyGroups(p, pic), p == "-gdwarf=-run" || p == "-gdwarf=--run")
  {
    ChecksRun(p, pic);
    ColorRun(p, pic);
    LinkageRun(p, pic);
    DebugInfoRun(p, pic);
    var dwarf := p == "-gdwarf=-run" || p == "-gdwarf=--run";
    if dwarf { DwarfNotTaken(p, pic); }
    FirstGroupDecides(TranslateChecks(p, pic), TranslateColor(p, pic), TranslateLinkage(p, pic), TranslateDebugInfo(p, pic), dwarf);
  }

  lemma LateGroupsRun(p: string, pic: bool, beyond: string, longMax: nat)
    requires p != "" && p[0] == '-'
    ensures RunsOnly(LateGroups(p, pic, beyond, longMax), false)
  {
    OutputRun(p, pic);
    TargetRun(p, pic, beyond);
    CodegenRun(p, pic);
    LevelsRun(p, pic, longMax);
    LaterGroupsDecide(TranslateOutput(p, pic), TranslateTarget(p, pic, beyond), TranslateCodegen(p, pic), TranslateLevels(p, pic, longMax));
  }

  lemma Decide(early: Option<Outcome>, late: Option<Outcome>, last: Outcome, dwarf: bool, isLast: bool, isRun: bool)
    requires RunsOnly(early, dwarf) && RunsOnly(late, false)
    requires dwarf ==> early.Some?
    requires isLast || isRun ==> early.None? && late.None?
    requires last.Run? <==> isRun
    requires !isRun ==> RunsOnly(Some(last), isLast)
    ensures
      var t := if early.Some? then early.value else if late.Some? then late.value else last;
      (t.Run? <==> isRun) && (!isRun ==> RunsOnly(Some(t), dwarf || isLast))
  {
  }

  lemma OptionRun(p: string, pic: bool, beyond: string, longMax: nat)
    requires p != "" && p[0] == '-'
    ensures TranslateOption(p, pic, beyond, longMax).Run? <==> p == "-run"
    ensures p != "-run" ==>
      RunsOnly(Some(TranslateOption(p, pic, beyond, longMax)),
               p == "-gdwarf=-run" || p == "-gdwarf=--run" || p == "--run" || p == "-Crun" || p == "-C-run")
  {
    EarlyGroupsRun(p, pic);
    LateGroupsRun(p, pic, beyond, longMax);
    LastRun(p, pic);
    var dwarf := p == "-gdwarf=-run" || p == "-gdwarf=--run";
    var isLast := p == "--run" || p == "-Crun" || p == "-C-run";
    if isLast || p == "-run" { LastNotTaken(p, pic, beyond, longMax); }
    if dwarf { DwarfNotTaken(p, pic); }
    Decide(EarlyGroups(p, pic), LateGroups(p, pic, beyond, longMax), TranslateLast(p, pic), dwarf, isLast, p == "-run");
  }

  /** Only `-run` itself starts the program's arguments, and exactly the options in RUN_PRODUCERS are translated to
      a run switch, whatever the memory behind the terminator holds. */
  lemma RunSwitchesExact(p: string, pic: bool, beyond: string, longMax: nat)
    ensures
      var producer := p == "--run" || p == "-Crun" || p == "-C-run" || p == "-gdwarf=-run" || p == "-gdwarf=--run";
      && producer == (p in RUN_PRODUCERS)
      && match TranslateArg(p, pic, beyond, longMax)
         case Run => p == "-run"
         case Exit => p != "-run" && !producer
         case Emit(args, _) =>
           && p != "-run"
           && HasRun(args) == (exists arg <- args :: arg == "-run" || arg == "--run")
           && HasRun(args) == producer
  {
    assert p in RUN_PRODUCERS <==>
      p == "--run" || p == "-Crun" || p == "-C-run" || p == "-gdwarf=-run" || p == "-gdwarf=--run";
    if At(p, 0) == '-' {
      OptionRun(p, pic, beyond, longMax);
    } else {
      One("-of=" + p);
      One(p);
      assert ("-of=" + p)[1] == 'o';
    }
  }
}
