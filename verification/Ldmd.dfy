/** The translation of DMD's command line to LDC's (`translateArgs` in driver/ldmd.cpp). */
module Ldmd {

  import Levels
  import opened CStrings
  import opened Common

  /** What becomes of one option: the LDC options it stands for and whether -fPIC was seen; or the end of ldmd,
      for help, version and hard errors; or the start of the arguments of the program to run. */
  datatype Outcome = Emit(args: seq<string>, pic: bool) | Exit | Run

  // ---------------------------------------------------------------- one argument

  /** Translates `-check=...` from the text behind the equals sign; None if the text is not recognised. */
  function TranslateCheck(arg: string): Option<seq<string>> {
    if arg == "on" then
      Some(["-boundscheck=on", "-enable-asserts", "-enable-preconditions", "-enable-invariants",
            "-enable-postconditions", "-enable-switch-errors"])
    else if arg == "off" then
      Some(["-boundscheck=off", "-disable-asserts", "-disable-preconditions", "-disable-invariants",
            "-disable-postconditions", "-disable-switch-errors"])
    else
      var n := |arg|;
      var on := n > 3 && arg[n - 3..] == "=on";
      var off := !on && n > 4 && arg[n - 4..] == "=off";
      var kind := if on then arg[..n - 3] else if off then arg[..n - 4] else arg;
      TranslateKind(kind, !off)
  }

  function TranslateKind(kind: string, enabled: bool): Option<seq<string>> {
    var flag := if enabled then "-enable-" else "-disable-";
    if kind == "bounds" then Some([if enabled then "-boundscheck=on" else "-boundscheck=off"])
    else if kind == "assert" then Some([flag + "asserts"])
    else if kind == "in" then Some([flag + "preconditions"])
    else if kind == "invariant" then Some([flag + "invariants"])
    else if kind == "out" then Some([flag + "postconditions"])
    else if kind == "switch" then Some([flag + "switch-errors"])
    else None
  }

  /** Translates the value of `-debug=` or `-version=`, which starts at index i of p. */
  function TranslateLevel(p: string, i: nat, option: string, longMax: nat): seq<string>
    requires i <= |p|
  {
    if IsDigit(At(p, i)) then
      match Levels.ParseLevel(p, i, longMax)
      case None => [p]
      case Some(level) => [option + Levels.Print(level)]
    else [option + p[i..]]
  }

  // The options are tried in the order of the code, group by group; None if no option of the group matches.

  function TranslateChecks(p: string, pic: bool): Option<Outcome>
    requires p != "" && p[0] == '-'
  {
    if EqualsAt(p, 1, "vdmd") then Some(Emit([], pic))
    else if StartsAt(p, 1, "check=") then
      match TranslateCheck(p[7..])
      case Some(args) => Some(Emit(args, pic))
      case None => Some(Emit([p], pic))
    else None
  }

  function TranslateColor(p: string, pic: bool): Option<Outcome>
    requires p != "" && p[0] == '-'
  {
    if StartsAt(p, 1, "color") then
      if At(p, 6) == '=' then
        if EqualsAt(p, 7, "on") then Some(Emit(["-enable-color"], pic))
        else if EqualsAt(p, 7, "off") then Some(Emit(["-disable-color"], pic))
        else if !EqualsAt(p, 7, "auto") then Some(Emit([p], pic))
        else Some(Emit([], pic))
      else if At(p, 6) != NUL then Some(Emit([p], pic))
      else Some(Emit(["-enable-color"], pic))
    else None
  }

  function TranslateLinkage(p: string, pic: bool): Option<Outcome>
    requires p != "" && p[0] == '-'
  {
    if StartsAt(p, 1, "visibility=") then Some(Emit(["-fvisibility=" + p[12..]], pic))
    else if EqualsAt(p, 1, "dylib") then Some(Emit(["-shared"], pic))
    else if EqualsAt(p, 1, "fIBT") then Some(Emit(["-fcf-protection=branch"], pic))
    else if EqualsAt(p, 1, "fPIC") then Some(Emit(if pic then [] else ["-relocation-model=pic"], true))
    else if EqualsAt(p, 1, "fPIE") || EqualsAt(p, 1, "map") || EqualsAt(p, 1, "multiobj") then Some(Emit([], pic))
    else None
  }

  function TranslateDebugInfo(p: string, pic: bool): Option<Outcome>
    requires p != "" && p[0] == '-'
  {
    if StartsAt(p, 1, "gdwarf=") then Some(Emit(["-gdwarf", "-dwarf-version", p[8..]], pic))
    else if EqualsAt(p, 1, "gf") then Some(Emit(["-g"], pic))
    else if EqualsAt(p, 1, "gs") then Some(Emit(["-frame-pointer=all"], pic))
    else if EqualsAt(p, 1, "gx") then Some(Emit([], pic))
    else if EqualsAt(p, 1, "gt") then Some(Exit)
    else None
  }

  function TranslateOutput(p: string, pic: bool): Option<Outcome>
    requires p != "" && p[0] == '-'
  {
    if EqualsAt(p, 1, "m32mscoff") then Some(Emit(["-m32"], pic))
    else if StartsAt(p, 1, "profile") then
      if At(p, 8) == NUL then Some(Emit(["-fdmd-trace-functions"], pic))
      else if EqualsAt(p, 8, "=gc") then Some(Emit([], pic))
      else Some(Emit([p], pic))
    else if EqualsAt(p, 1, "vasm") then Some(Emit(["--output-s", "--output-o", "--x86-asm-syntax=intel"], pic))
    else if EqualsAt(p, 1, "vtls") then Some(Emit(["-transition=tls"], pic))
    else None
  }

  /** `-verrors...`: for the bare option the code reads behind the terminator; `beyond` is what it finds there. */
  function TranslateVerrors(p: string, beyond: string): seq<string>
    requires "-verrors" <= p
  {
    var behind := if |p| > 8 then p[9..] else beyond;
    if At(p, 8) == '=' && IsDigit(At(p, 9)) then [p]
    else if "spec" <= behind then ["-verrors-spec"]
    else if "context" <= behind then ["-verrors-context"]
    else [p]
  }

  function TranslateTarget(p: string, pic: bool, beyond: string): Option<Outcome>
    requires p != "" && p[0] == '-'
  {
    if StartsAt(p, 1, "verrors") then Some(Emit(TranslateVerrors(p, beyond), pic))
    else if StartsAt(p, 1, "target=") then Some(Emit(["-mtriple=" + p[8..]], pic))
    else if StartsAt(p, 1, "mcpu=") then
      if EqualsAt(p, 6, "?") || EqualsAt(p, 6, "h") || EqualsAt(p, 6, "help") then Some(Emit(["-mcpu=help"], pic))
      else if EqualsAt(p, 6, "baseline") then Some(Emit([], pic))
      else if EqualsAt(p, 6, "avx") then Some(Emit(["-mattr=+avx"], pic))
      else if EqualsAt(p, 6, "avx2") then Some(Emit(["-mattr=+avx2"], pic))
      else Some(Emit([p], pic))
    else if StartsAt(p, 1, "os=") || EqualsAt(p, 1, "o") then Some(Exit)
    else None
  }

  function TranslateCodegen(p: string, pic: bool): Option<Outcome>
    requires p != "" && p[0] == '-'
  {
    if EqualsAt(p, 1, "inline") then Some(Emit(["-enable-inlining", "-Hkeep-all-bodies"], pic))
    else if EqualsAt(p, 1, "lib") then Some(Emit([p, "-oq", "-cleanup-obj"], pic))
    else if EqualsAt(p, 1, "nofloat") || EqualsAt(p, 1, "quiet") then Some(Emit([], pic))
    else if EqualsAt(p, 1, "noboundscheck") then Some(Emit(["-boundscheck=off"], pic))
    else if EqualsAt(p, 1, "nothrow") then Some(Emit(["-fno-exceptions"], pic))
    else None
  }

  function TranslateLevels(p: string, pic: bool, longMax: nat): Option<Outcome>
    requires p != "" && p[0] == '-'
  {
    if StartsAt(p, 1, "debug") && At(p, 6) != 'l' then
      if At(p, 6) == '=' then Some(Emit(TranslateLevel(p, 7, "-d-debug=", longMax), pic))
      else if At(p, 6) != NUL then Some(Emit([p], pic))
      else Some(Emit(["-d-debug"], pic))
    else if StartsAt(p, 1, "version") then
      if At(p, 8) == '=' then Some(Emit(TranslateLevel(p, 9, "-d-version=", longMax), pic))
      else Some(Emit([p], pic))
    else None
  }

  function TranslateLast(p: string, pic: bool): Outcome
    requires p != "" && p[0] == '-'
  {
    if p == "--b" || p == "--c" || p == "--f" || p == "--r" || p == "--x" || p == "--y" then
      Emit(["-hidden-debug-" + p[2..]], pic)
    else if EqualsAt(p, 1, "-help") || EqualsAt(p, 1, "h") || EqualsAt(p, 1, "-version") then Exit
    else if StartsAt(p, 1, "man") then Exit
    else if EqualsAt(p, 1, "run") then Run
    else if At(p, 1) == NUL then Emit(["-"], pic)
    else if At(p, 1) == 'C' then Emit(["-" + p[2..]], pic)
    else Emit([p], pic)
  }

  function OrElse(a: Option<Outcome>, b: Option<Outcome>): Option<Outcome> {
    if a.Some? then a else b
  }

  function EarlyGroups(p: string, pic: bool): Option<Outcome>
    requires p != "" && p[0] == '-'
  {
    OrElse(TranslateChecks(p, pic), OrElse(TranslateColor(p, pic), OrElse(TranslateLinkage(p, pic), TranslateDebugInfo(p, pic))))
  }

  function LateGroups(p: string, pic: bool, beyond: string, longMax: nat): Option<Outcome>
    requires p != "" && p[0] == '-'
  {
    OrElse(TranslateOutput(p, pic), OrElse(TranslateTarget(p, pic, beyond), OrElse(TranslateCodegen(p, pic), TranslateLevels(p, pic, longMax))))
  }

  function TranslateOption(p: string, pic: bool, beyond: string, longMax: nat): Outcome
    requires p != "" && p[0] == '-'
  {
    var early := EarlyGroups(p, pic);
    var late := LateGroups(p, pic, beyond, longMax);
    if early.Some? then early.value else if late.Some? then late.value else TranslateLast(p, pic)
  }

  /** The extension of the last component of a path: from its last dot, unless the component is only dots. */
  function Extension(path: string): string {
    var file := Basename(path);
    if file == "." || file == ".." then "" else FromLastDot(file)
  }

  function FromLastDot(file: string): string {
    if file == "" then ""
    else if file[0] == '.' && '.' !in file[1..] then file
    else FromLastDot(file[1..])
  }

  predicate IsExe(ext: string) {
    && |ext| == 4 && ext[0] == '.' && (ext[1] == 'e' || ext[1] == 'E')
    && (ext[2] == 'x' || ext[2] == 'X') && (ext[3] == 'e' || ext[3] == 'E')
  }

  function TranslateArg(p: string, pic: bool, beyond: string, longMax: nat): Outcome {
    if At(p, 0) == '-' then TranslateOption(p, pic, beyond, longMax)
    else if IsExe(Extension(p)) then Emit(["-of=" + p], pic)
    else Emit([p], pic)
  }

  /** The result depends on the memory behind the terminator for the bare `-verrors` and for nothing else. */
  lemma ReadsBeyondExactly(p: string, pic: bool, longMax: nat)
    ensures p == "-verrors" <==>
      exists a, b :: TranslateArg(p, pic, a, longMax) != TranslateArg(p, pic, b, longMax)
  {
    if p == "-verrors" {
      BareVerrors(pic, "", longMax);
      BareVerrors(pic, "spec", longMax);
      assert TranslateArg(p, pic, "", longMax) != TranslateArg(p, pic, "spec", longMax);
    } else {
      forall a, b ensures TranslateArg(p, pic, a, longMax) == TranslateArg(p, pic, b, longMax) {
        if "-verrors" <= p {
          Longer(p, "-verrors");
        } else if p != "" && p[0] == '-' {
          BehindDash(p, "verrors");
          assert "-" + "verrors" == "-verrors";
        }
      }
    }
  }

  lemma Longer(p: string, prefix: string)
    requires prefix <= p && p != prefix
    ensures |p| > |prefix|
  {
    assert p == prefix + p[|prefix|..];
  }

  lemma BareVerrors(pic: bool, beyond: string, longMax: nat)
    ensures TranslateArg("-verrors", pic, beyond, longMax) == Emit(TranslateVerrors("-verrors", beyond), pic)
  {
    var q := "-verrors"[1..];
    assert q == "verrors" && q[0] == 'v' && q[1] == 'e';
    assert forall w: string :: w != "" && w <= q ==> w[0] == q[0];
  }

  // ---------------------------------------------------------------- the argument list

  /** What the memory behind the terminators holds, by argument index, and LONG_MAX. */
  datatype Env = Env(beyond: nat -> string, longMax: nat)

  /** The translation of an argument at an index. */
  type Translator = (string, bool, nat) -> Outcome

  function TranslatorFor(env: Env): Translator {
    (p: string, pic: bool, i: nat) => TranslateArg(p, pic, env.beyond(i), env.longMax)
  }

  /** Translates the arguments from index i on; everything from `-run` on is copied. None if ldmd ends. */
  function TranslateFrom(f: Translator, args: seq<string>, i: nat, pic: bool): Option<seq<string>>
    requires i <= |args|
    decreases |args| - i
  {
    if i == |args| then Some([])
    else match f(args[i], pic, i)
      case Exit => None
      case Run => Some(args[i..])
      case Emit(out, pic') =>
        match TranslateFrom(f, args, i + 1, pic')
        case None => None
        case Some(rest) => Some(out + rest)
  }

  /** The index of the first element from i on that satisfies f, or the length. */
  function FirstFrom(args: seq<string>, f: string -> bool, i: nat): (n: nat)
    requires i <= |args|
    ensures i <= n <= |args|
    ensures n < |args| ==> f(args[n])
    ensures forall k :: i <= k < n ==> !f(args[k])
    decreases |args| - i
  {
    if i == |args| || f(args[i]) then i else FirstFrom(args, f, i + 1)
  }

  function InsertAt(args: seq<string>, i: nat, more: seq<string>): seq<string>
    requires i <= |args|
  {
    args[..i] + more + args[i..]
  }

  /** The loop looking for the place to insert at; 0 stands for none found. */
  method FindRun(args: seq<string>, f: string -> bool) returns (runIndex: nat)
    requires args != []
    ensures runIndex == if FirstFrom(args, f, 1) == |args| then 0 else FirstFrom(args, f, 1)
  {
    runIndex := 0;
    var i := 1;
    while i < |args|
      invariant 1 <= i <= |args| && runIndex == 0
      invariant FirstFrom(args, f, 1) == FirstFrom(args, f, i)
    {
      if f(args[i]) {
        runIndex := i;
        break;
      }
      i := i + 1;
    }
  }

  /** DFLAGS are appended, but before a first `-run`. */
  method InsertDflags(args: seq<string>, dflags: seq<string>) returns (r: seq<string>)
    requires args != []
    ensures r == InsertAt(args, FirstFrom(args, s => s == "-run", 1), dflags)
  {
    r := args;
    if dflags != [] {
      var runIndex := FindRun(args, s => s == "-run");
      r := if runIndex == 0 then args + dflags else args[..runIndex] + dflags + args[runIndex..];
    }
  }

  /** The loop over the arguments: appends their translations, and copies everything from a `-run` on. */
  method TranslateLoop(f: Translator, args: seq<string>, start: seq<string>) returns (exits: bool, ldcArgs: seq<string>)
    requires args != []
    ensures
      var t := TranslateFrom(f, args, 1, false);
      exits == t.None? && (t.Some? ==> ldcArgs == start + t.value)
  {
    exits, ldcArgs := false, start;
    var pic := false;
    var i := 1;
    ghost var whole := TranslateFrom(f, args, 1, false);
    while i < |args|
      invariant 1 <= i <= |args| && !exits
      invariant
        var t := TranslateFrom(f, args, i, pic);
        whole.None? == t.None? && (t.Some? ==> start + whole.value == ldcArgs + t.value)
    {
      match f(args[i], pic, i) {
        case Exit =>
          exits := true;
          return;
        case Run =>
          ldcArgs := ldcArgs + args[i..];
          return;
        case Emit(out, pic') =>
          ghost var rest := TranslateFrom(f, args, i + 1, pic');
          assert rest.Some? ==> ldcArgs + (out + rest.value) == ldcArgs + out + rest.value;
          ldcArgs := ldcArgs + out;
          pic := pic';
      }
      i := i + 1;
    }
  }

  /** The whole translation of already expanded arguments; `exits` tells that ldmd ends instead. */
  method TranslateArgs(env: Env, ldmdArgs: seq<string>, dflags: seq<string>, ldcPath: string)
    returns (exits: bool, ldcArgs: seq<string>)
    requires ldmdArgs != []
    ensures
      var args := InsertAt(ldmdArgs, FirstFrom(ldmdArgs, s => s == "-run", 1), dflags);
      var t := TranslateFrom(TranslatorFor(env), args, 1, false);
      exits == t.None? && (t.Some? ==> ldcArgs == [ldcPath, "-ldmd"] + t.value)
  {
    var args := InsertDflags(ldmdArgs, dflags);
    exits, ldcArgs := TranslateLoop(TranslatorFor(env), args, [ldcPath, "-ldmd"]);
  }
}
