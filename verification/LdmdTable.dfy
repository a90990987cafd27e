/** ldmd's translation of single arguments as a table: what each option becomes, by its text, and that every other
    argument is passed on as it is. Check options and numeric levels have modules of their own. */
module LdmdTable {

  import opened CStrings
  import opened Common
  import opened Ldmd

  /** A text is not a word, and does not begin with it, if the second characters differ. */
  lemma OtherLetter(p: string)
    requires |p| >= 2 && p[0] == '-'
    ensures forall w: string :: w != "" && EqualsAt(p, 1, w) ==> w[0] == p[1]
    ensures forall w: string :: w != "" && StartsAt(p, 1, w) ==> w[0] == p[1]
  {
    forall w: string | w != "" && EqualsAt(p, 1, w) ensures w[0] == p[1] {
      assert w[0] == p[1..][0];
    }
    forall w: string | w != "" && StartsAt(p, 1, w) ensures w[0] == p[1] {
      assert w[0] == p[1..][0];
    }
  }

  lemma Whole(p: string, w: string)
    requires p != "" && p[0] == '-'
    ensures EqualsAt(p, 1, w) <==> p == "-" + w
    ensures StartsAt(p, 1, w) <==> "-" + w <= p
  {
    assert p == "-" + p[1..];
    BehindDash(p, w);
  }

  // ---------------------------------------------------------------- which letters a group knows

  lemma ChecksLetters(p: string, pic: bool)
    requires |p| >= 2 && p[0] == '-' && p[1] != 'v' && p[1] != 'c'
    ensures TranslateChecks(p, pic).None?
  {
    OtherLetter(p);
  }

  lemma ColorLetters(p: string, pic: bool)
    requires |p| >= 2 && p[0] == '-' && p[1] != 'c'
    ensures TranslateColor(p, pic).None?
  {
    OtherLetter(p);
  }

  lemma LinkageLetters(p: string, pic: bool)
    requires |p| >= 2 && p[0] == '-' && p[1] != 'v' && p[1] != 'd' && p[1] != 'f' && p[1] != 'm'
    ensures TranslateLinkage(p, pic).None?
  {
    OtherLetter(p);
  }

  lemma DebugInfoLetters(p: string, pic: bool)
    requires |p| >= 2 && p[0] == '-' && p[1] != 'g'
    ensures TranslateDebugInfo(p, pic).None?
  {
    OtherLetter(p);
  }

  lemma OutputLetters(p: string, pic: bool)
    requires |p| >= 2 && p[0] == '-' && p[1] != 'm' && p[1] != 'p' && p[1] != 'v'
    ensures TranslateOutput(p, pic).None?
  {
    OtherLetter(p);
  }

  lemma TargetLetters(p: string, pic: bool, beyond: string)
    requires |p| >= 2 && p[0] == '-' && p[1] != 'v' && p[1] != 't' && p[1] != 'm' && p[1] != 'o'
    ensures TranslateTarget(p, pic, beyond).None?
  {
    OtherLetter(p);
  }

  lemma CodegenLetters(p: string, pic: bool)
    requires |p| >= 2 && p[0] == '-' && p[1] != 'i' && p[1] != 'l' && p[1] != 'n' && p[1] != 'q'
    ensures TranslateCodegen(p, pic).None?
  {
    OtherLetter(p);
  }

  lemma LevelsLetters(p: string, pic: bool, longMax: nat)
    requires |p| >= 2 && p[0] == '-' && p[1] != 'd' && p[1] != 'v'
    ensures TranslateLevels(p, pic, longMax).None?
  {
    OtherLetter(p);
  }

  lemma LastLetters(p: string, pic: bool)
    requires |p| >= 2 && p[0] == '-' && p[1] != '\0'
    requires p[1] != '-' && p[1] != 'h' && p[1] != 'm' && p[1] != 'r' && p[1] != 'C'
    ensures TranslateLast(p, pic) == Emit([p], pic)
  {
    OtherLetter(p);
  }

  lemma Value(p: string, front: string, w: string)
    requires front <= p
    ensures EqualsAt(p, |front|, w) <==> p == front + w
  {
    assert p == front + p[|front|..];
  }

  // ---------------------------------------------------------------- the table, by the letter behind the dash

  /** Letters no option of the table begins with. */
  lemma OtherOptions(p: string, pic: bool, beyond: string, longMax: nat)
    requires |p| >= 2 && p[0] == '-' && p[1] != '\0'
    requires p[1] !in "-Ccdfghilmnopqrtv"
    ensures TranslateArg(p, pic, beyond, longMax) == Emit([p], pic)
  {
    assert "-Ccdfghilmnopqrtv" == ['-', 'C', 'c', 'd', 'f', 'g', 'h', 'i', 'l', 'm', 'n', 'o', 'p', 'q', 'r', 't', 'v'];
    ChecksLetters(p, pic);
    ColorLetters(p, pic);
    LinkageLetters(p, pic);
    DebugInfoLetters(p, pic);
    OutputLetters(p, pic);
    TargetLetters(p, pic, beyond);
    CodegenLetters(p, pic);
    LevelsLetters(p, pic, longMax);
    LastLetters(p, pic);
  }

  /** Options that begin with `-f`. */
  lemma OptionsF(p: string, pic: bool, beyond: string, longMax: nat)
    requires |p| >= 2 && p[0] == '-' && p[1] == 'f'
    ensures TranslateArg(p, pic, beyond, longMax) ==
      if p == "-fIBT" then Emit(["-fcf-protection=branch"], pic)
      else if p == "-fPIC" then Emit(if pic then [] else ["-relocation-model=pic"], true)
      else if p == "-fPIE" then Emit([], pic)
      else Emit([p], pic)
  {
    ChecksLetters(p, pic);
    ColorLetters(p, pic);
    LinkageF(p, pic);
    DebugInfoLetters(p, pic);
    OutputLetters(p, pic);
    TargetLetters(p, pic, beyond);
    CodegenLetters(p, pic);
    LevelsLetters(p, pic, longMax);
    LastLetters(p, pic);
  }

  lemma LinkageF(p: string, pic: bool)
    requires |p| >= 2 && p[0] == '-' && p[1] == 'f'
    ensures TranslateLinkage(p, pic) ==
      if p == "-fIBT" then Some(Emit(["-fcf-protection=branch"], pic))
      else if p == "-fPIC" then Some(Emit(if pic then [] else ["-relocation-model=pic"], true))
      else if p == "-fPIE" then Some(Emit([], pic))
      else None
  {
    OtherLetter(p);
    Whole(p, "fIBT");
    Whole(p, "fPIC");
    Whole(p, "fPIE");
    assert "-" + "fIBT" == "-fIBT" && "-" + "fPIC" == "-fPIC" && "-" + "fPIE" == "-fPIE";
  }

  /** Options that begin with `-c`. `-check=` is apart. */
  lemma OptionsC(p: string, pic: bool, beyond: string, longMax: nat)
    requires |p| >= 2 && p[0] == '-' && p[1] == 'c'
    requires '\0' !in p && !("-check=" <= p)
    ensures TranslateArg(p, pic, beyond, longMax) ==
      if p == "-color" || p == "-color=on" then Emit(["-enable-color"], pic)
      else if p == "-color=off" then Emit(["-disable-color"], pic)
      else if p == "-color=auto" then Emit([], pic)
      else Emit([p], pic)
  {
    ChecksC(p, pic);
    ColorC(p, pic);
    LinkageLetters(p, pic);
    DebugInfoLetters(p, pic);
    OutputLetters(p, pic);
    TargetLetters(p, pic, beyond);
    CodegenLetters(p, pic);
    LevelsLetters(p, pic, longMax);
    LastLetters(p, pic);
  }

  lemma ColorC(p: string, pic: bool)
    requires |p| >= 2 && p[0] == '-' && p[1] == 'c' && '\0' !in p
    ensures TranslateColor(p, pic) ==
      if p == "-color" || p == "-color=on" then Some(Emit(["-enable-color"], pic))
      else if p == "-color=off" then Some(Emit(["-disable-color"], pic))
      else if p == "-color=auto" then Some(Emit([], pic))
      else if "-color" <= p then Some(Emit([p], pic))
      else None
  {
    Whole(p, "color");
    assert "-" + "color" == "-color";
    if "-color" <= p {
      ColorText(p, pic);
    } else {
      assert "-color" <= "-color=on" && "-color" <= "-color=off" && "-color" <= "-color=auto";
    }
  }

  lemma ColorText(p: string, pic: bool)
    requires "-color" <= p && '\0' !in p
    ensures TranslateColor(p, pic) ==
      if p == "-color" || p == "-color=on" then Some(Emit(["-enable-color"], pic))
      else if p == "-color=off" then Some(Emit(["-disable-color"], pic))
      else if p == "-color=auto" then Some(Emit([], pic))
      else Some(Emit([p], pic))
  {
    Whole(p, "color");
    assert "-" + "color" == "-color";
    if p == "-color" {
    } else if p[6] == '=' {
      assert p[..7] == "-color" + "=" == "-color=";
      Value(p, "-color=", "on");
      Value(p, "-color=", "off");
      Value(p, "-color=", "auto");
      assert "-color=" + "on" == "-color=on" && "-color=" + "off" == "-color=off" && "-color=" + "auto" == "-color=auto";
    } else {
      assert p[6] in p;
      assert "-color=on"[6] == '=' && "-color=off"[6] == '=' && "-color=auto"[6] == '=';
    }
  }

  /** Options that begin with `-v`. Numeric versions are apart. */
  lemma OptionsV(p: string, pic: bool, beyond: string, longMax: nat)
    requires |p| >= 2 && p[0] == '-' && p[1] == 'v'
    requires !("-version=" <= p && |p| > 9 && '0' <= p[9] <= '9')
    ensures TranslateArg(p, pic, beyond, longMax) ==
      if p == "-vdmd" then Emit([], pic)
      else if "-visibility=" <= p then Emit(["-fvisibility=" + p[12..]], pic)
      else if p == "-vasm" then Emit(["--output-s", "--output-o", "--x86-asm-syntax=intel"], pic)
      else if p == "-vtls" then Emit(["-transition=tls"], pic)
      else if "-verrors" <= p && |p| > 9 && p[8] == '=' && '0' <= p[9] <= '9' then Emit([p], pic)
      else if "-verrors" <= p && "spec" <= (if |p| > 8 then p[9..] else beyond) then Emit(["-verrors-spec"], pic)
      else if "-verrors" <= p && "context" <= (if |p| > 8 then p[9..] else beyond) then Emit(["-verrors-context"], pic)
      else if "-verrors" <= p then Emit([p], pic)
      else if "-version=" <= p then Emit(["-d-version=" + p[9..]], pic)
      else Emit([p], pic)
  {
    ChecksV(p, pic);
    ColorLetters(p, pic);
    LinkageV(p, pic);
    DebugInfoLetters(p, pic);
    OutputV(p, pic);
    TargetV(p, pic, beyond);
    CodegenLetters(p, pic);
    LevelsV(p, pic, longMax);
    LastLetters(p, pic);
  }

  lemma ChecksV(p: string, pic: bool)
    requires |p| >= 2 && p[0] == '-' && p[1] == 'v'
    ensures TranslateChecks(p, pic) ==
      if p == "-vdmd" then Some(Emit([], pic))
      else None
  {
    OtherLetter(p);
    Whole(p, "vdmd");
    assert "-" + "vdmd" == "-vdmd";
  }

  lemma LinkageV(p: string, pic: bool)
    requires |p| >= 2 && p[0] == '-' && p[1] == 'v'
    ensures TranslateLinkage(p, pic) ==
      if "-visibility=" <= p then Some(Emit(["-fvisibility=" + p[12..]], pic))
      else None
  {
    OtherLetter(p);
    Whole(p, "visibility=");
    assert "-" + "visibility=" == "-visibility=";
  }

  lemma OutputV(p: string, pic: bool)
    requires |p| >= 2 && p[0] == '-' && p[1] == 'v'
    ensures TranslateOutput(p, pic) ==
      if p == "-vasm" then Some(Emit(["--output-s", "--output-o", "--x86-asm-syntax=intel"], pic))
      else if p == "-vtls" then Some(Emit(["-transition=tls"], pic))
      else None
  {
    OtherLetter(p);
    Whole(p, "vasm");
    Whole(p, "vtls");
    assert "-" + "vasm" == "-vasm" && "-" + "vtls" == "-vtls";
  }

  lemma TargetV(p: string, pic: bool, beyond: string)
    requires |p| >= 2 && p[0] == '-' && p[1] == 'v'
    ensures TranslateTarget(p, pic, beyond) ==
      if "-verrors" <= p && |p| > 9 && p[8] == '=' && '0' <= p[9] <= '9' then Some(Emit([p], pic))
      else if "-verrors" <= p && "spec" <= (if |p| > 8 then p[9..] else beyond) then Some(Emit(["-verrors-spec"], pic))
      else if "-verrors" <= p && "context" <= (if |p| > 8 then p[9..] else beyond) then Some(Emit(["-verrors-context"], pic))
      else if "-verrors" <= p then Some(Emit([p], pic))
      else None
  {
    OtherLetter(p);
    Whole(p, "verrors");
    assert "-" + "verrors" == "-verrors";
  }

  lemma LevelsV(p: string, pic: bool, longMax: nat)
    requires |p| >= 2 && p[0] == '-' && p[1] == 'v'
    requires !("-version=" <= p && |p| > 9 && '0' <= p[9] <= '9')
    ensures TranslateLevels(p, pic, longMax) ==
      if "-version=" <= p then Some(Emit(["-d-version=" + p[9..]], pic))
      else if "-version" <= p then Some(Emit([p], pic))
      else None
  {
    OtherLetter(p);
    Whole(p, "version=");
    Whole(p, "version");
    assert "-" + "version=" == "-version=" && "-" + "version" == "-version";
  }

  /** Options that begin with `-d`. Numeric levels are apart. */
  lemma OptionsD(p: string, pic: bool, beyond: string, longMax: nat)
    requires |p| >= 2 && p[0] == '-' && p[1] == 'd'
    requires '\0' !in p && !("-debug=" <= p && |p| > 7 && '0' <= p[7] <= '9')
    ensures TranslateArg(p, pic, beyond, longMax) ==
      if p == "-dylib" then Emit(["-shared"], pic)
      else if p == "-debug" then Emit(["-d-debug"], pic)
      else if "-debug=" <= p then Emit(["-d-debug=" + p[7..]], pic)
      else Emit([p], pic)
  {
    ChecksLetters(p, pic);
    ColorLetters(p, pic);
    LinkageD(p, pic);
    DebugInfoLetters(p, pic);
    OutputLetters(p, pic);
    TargetLetters(p, pic, beyond);
    CodegenLetters(p, pic);
    LevelsD(p, pic, longMax);
    LastLetters(p, pic);
  }

  lemma LinkageD(p: string, pic: bool)
    requires |p| >= 2 && p[0] == '-' && p[1] == 'd'
    ensures TranslateLinkage(p, pic) ==
      if p == "-dylib" then Some(Emit(["-shared"], pic))
      else None
  {
    OtherLetter(p);
    Whole(p, "dylib");
    assert "-" + "dylib" == "-dylib";
  }

  lemma LevelsD(p: string, pic: bool, longMax: nat)
    requires |p| >= 2 && p[0] == '-' && p[1] == 'd'
    requires '\0' !in p && !("-debug=" <= p && |p| > 7 && '0' <= p[7] <= '9')
    ensures TranslateLevels(p, pic, longMax) ==
      if p == "-debug" then Some(Emit(["-d-debug"], pic))
      else if "-debug=" <= p then Some(Emit(["-d-debug=" + p[7..]], pic))
      else if "-debug" <= p && p[6] != 'l' then Some(Emit([p], pic))
      else None
  {
    OtherLetter(p);
    Whole(p, "debug");
    Whole(p, "debug=");
    assert "-" + "debug" == "-debug" && "-" + "debug=" == "-debug=";
  }

  /** Options that begin with `-m`. */
  lemma OptionsM(p: string, pic: bool, beyond: string, longMax: nat)
    requires |p| >= 2 && p[0] == '-' && p[1] == 'm'
    ensures TranslateArg(p, pic, beyond, longMax) ==
      if p == "-map" || p == "-multiobj" then Emit([], pic)
      else if p == "-m32mscoff" then Emit(["-m32"], pic)
      else if p == "-mcpu=?" || p == "-mcpu=h" || p == "-mcpu=help" then Emit(["-mcpu=help"], pic)
      else if p == "-mcpu=baseline" then Emit([], pic)
      else if p == "-mcpu=avx" then Emit(["-mattr=+avx"], pic)
      else if p == "-mcpu=avx2" then Emit(["-mattr=+avx2"], pic)
      else if "-man" <= p then Exit
      else Emit([p], pic)
  {
    ChecksLetters(p, pic);
    ColorLetters(p, pic);
    LinkageM(p, pic);
    DebugInfoLetters(p, pic);
    OutputM(p, pic);
    CodegenLetters(p, pic);
    LevelsLetters(p, pic, longMax);
    if "-mcpu=" <= p {
      McpuText(p, pic, beyond);
      assert p[2] == "-mcpu="[2];
      assert "-map"[2] == 'a' && "-multiobj"[2] == 'u' && "-m32mscoff"[2] == '3' && "-man"[2] == 'a';
    } else {
      TargetM(p, pic, beyond);
      NotMcpu(p);
      LastM(p, pic);
    }
  }

  lemma NotMcpu(p: string)
    requires !("-mcpu=" <= p)
    ensures p != "-mcpu=?" && p != "-mcpu=h" && p != "-mcpu=help" && p != "-mcpu=baseline" && p != "-mcpu=avx" && p != "-mcpu=avx2"
  {
    assert "-mcpu=" <= "-mcpu=?" && "-mcpu=" <= "-mcpu=h" && "-mcpu=" <= "-mcpu=help";
    assert "-mcpu=" <= "-mcpu=baseline" && "-mcpu=" <= "-mcpu=avx" && "-mcpu=" <= "-mcpu=avx2";
  }

  lemma McpuText(p: string, pic: bool, beyond: string)
    requires "-mcpu=" <= p
    ensures TranslateTarget(p, pic, beyond) ==
      if p == "-mcpu=?" || p == "-mcpu=h" || p == "-mcpu=help" then Some(Emit(["-mcpu=help"], pic))
      else if p == "-mcpu=baseline" then Some(Emit([], pic))
      else if p == "-mcpu=avx" then Some(Emit(["-mattr=+avx"], pic))
      else if p == "-mcpu=avx2" then Some(Emit(["-mattr=+avx2"], pic))
      else Some(Emit([p], pic))
  {
    OtherLetter(p);
    Whole(p, "mcpu=");
    assert "-" + "mcpu=" == "-mcpu=";
    McpuValues(p);
  }

  lemma McpuValues(p: string)
    requires "-mcpu=" <= p
    ensures EqualsAt(p, 6, "?") == (p == "-mcpu=?") && EqualsAt(p, 6, "h") == (p == "-mcpu=h")
    ensures EqualsAt(p, 6, "help") == (p == "-mcpu=help") && EqualsAt(p, 6, "baseline") == (p == "-mcpu=baseline")
    ensures EqualsAt(p, 6, "avx") == (p == "-mcpu=avx") && EqualsAt(p, 6, "avx2") == (p == "-mcpu=avx2")
  {
    Value(p, "-mcpu=", "?");
    Value(p, "-mcpu=", "h");
    Value(p, "-mcpu=", "help");
    Value(p, "-mcpu=", "baseline");
    Value(p, "-mcpu=", "avx");
    Value(p, "-mcpu=", "avx2");
    assert "-mcpu=" + "?" == "-mcpu=?" && "-mcpu=" + "h" == "-mcpu=h" && "-mcpu=" + "help" == "-mcpu=help";
    assert "-mcpu=" + "baseline" == "-mcpu=baseline" && "-mcpu=" + "avx" == "-mcpu=avx" && "-mcpu=" + "avx2" == "-mcpu=avx2";
  }

  lemma LinkageM(p: string, pic: bool)
    requires |p| >= 2 && p[0] == '-' && p[1] == 'm'
    ensures TranslateLinkage(p, pic) ==
      if p == "-map" || p == "-multiobj" then Some(Emit([], pic))
      else None
  {
    OtherLetter(p);
    Whole(p, "map");
    Whole(p, "multiobj");
    assert "-" + "map" == "-map" && "-" + "multiobj" == "-multiobj";
  }

  lemma OutputM(p: string, pic: bool)
    requires |p| >= 2 && p[0] == '-' && p[1] == 'm'
    ensures TranslateOutput(p, pic) ==
      if p == "-m32mscoff" then Some(Emit(["-m32"], pic))
      else None
  {
    OtherLetter(p);
    Whole(p, "m32mscoff");
    assert "-" + "m32mscoff" == "-m32mscoff";
  }

  lemma TargetM(p: string, pic: bool, beyond: string)
    requires |p| >= 2 && p[0] == '-' && p[1] == 'm'
    ensures !("-mcpu=" <= p) ==> TranslateTarget(p, pic, beyond).None?
  {
    OtherLetter(p);
    Whole(p, "mcpu=");
    assert "-" + "mcpu=" == "-mcpu=";
  }

  lemma LastM(p: string, pic: bool)
    requires |p| >= 2 && p[0] == '-' && p[1] == 'm'
    ensures TranslateLast(p, pic) ==
      if "-man" <= p then Exit
      else Emit([p], pic)
  {
    OtherLetter(p);
    Whole(p, "man");
    assert "-" + "man" == "-man";
  }

  /** Options that begin with `-g`. */
  lemma OptionsG(p: string, pic: bool, beyond: string, longMax: nat)
    requires |p| >= 2 && p[0] == '-' && p[1] == 'g'
    ensures TranslateArg(p, pic, beyond, longMax) ==
      if "-gdwarf=" <= p then Emit(["-gdwarf", "-dwarf-version", p[8..]], pic)
      else if p == "-gf" then Emit(["-g"], pic)
      else if p == "-gs" then Emit(["-frame-pointer=all"], pic)
      else if p == "-gx" then Emit([], pic)
      else if p == "-gt" then Exit
      else Emit([p], pic)
  {
    ChecksLetters(p, pic);
    ColorLetters(p, pic);
    LinkageLetters(p, pic);
    DebugInfoG(p, pic);
    OutputLetters(p, pic);
    TargetLetters(p, pic, beyond);
    CodegenLetters(p, pic);
    LevelsLetters(p, pic, longMax);
    LastLetters(p, pic);
  }

  lemma DebugInfoG(p: string, pic: bool)
    requires |p| >= 2 && p[0] == '-' && p[1] == 'g'
    ensures TranslateDebugInfo(p, pic) ==
      if "-gdwarf=" <= p then Some(Emit(["-gdwarf", "-dwarf-version", p[8..]], pic))
      else if p == "-gf" then Some(Emit(["-g"], pic))
      else if p == "-gs" then Some(Emit(["-frame-pointer=all"], pic))
      else if p == "-gx" then Some(Emit([], pic))
      else if p == "-gt" then Some(Exit)
      else None
  {
    OtherLetter(p);
    Whole(p, "gdwarf=");
    Whole(p, "gf");
    Whole(p, "gs");
    Whole(p, "gx");
    Whole(p, "gt");
    assert "-" + "gdwarf=" == "-gdwarf=" && "-" + "gf" == "-gf" && "-" + "gs" == "-gs" && "-" + "gx" == "-gx" && "-" + "gt" == "-gt";
  }

  /** Options that begin with `-p`. */
  lemma OptionsP(p: string, pic: bool, beyond: string, longMax: nat)
    requires |p| >= 2 && p[0] == '-' && p[1] == 'p'
    requires '\0' !in p
    ensures TranslateArg(p, pic, beyond, longMax) ==
      if p == "-profile" then Emit(["-fdmd-trace-functions"], pic)
      else if p == "-profile=gc" then Emit([], pic)
      else Emit([p], pic)
  {
    ChecksLetters(p, pic);
    ColorLetters(p, pic);
    LinkageLetters(p, pic);
    DebugInfoLetters(p, pic);
    OutputP(p, pic);
    TargetLetters(p, pic, beyond);
    CodegenLetters(p, pic);
    LevelsLetters(p, pic, longMax);
    LastLetters(p, pic);
  }

  lemma OutputP(p: string, pic: bool)
    requires |p| >= 2 && p[0] == '-' && p[1] == 'p'
    requires '\0' !in p
    ensures TranslateOutput(p, pic) ==
      if p == "-profile" then Some(Emit(["-fdmd-trace-functions"], pic))
      else if p == "-profile=gc" then Some(Emit([], pic))
      else if "-profile" <= p then Some(Emit([p], pic))
      else None
  {
    OtherLetter(p);
    Whole(p, "profile");
    Whole(p, "profile=gc");
    assert "-" + "profile" == "-profile" && "-" + "profile=gc" == "-profile=gc";
  }

  /** Options that begin with `-t`. */
  lemma OptionsT(p: string, pic: bool, beyond: string, longMax: nat)
    requires |p| >= 2 && p[0] == '-' && p[1] == 't'
    ensures TranslateArg(p, pic, beyond, longMax) ==
      if "-target=" <= p then Emit(["-mtriple=" + p[8..]], pic)
      else Emit([p], pic)
  {
    ChecksLetters(p, pic);
    ColorLetters(p, pic);
    LinkageLetters(p, pic);
    DebugInfoLetters(p, pic);
    OutputLetters(p, pic);
    TargetT(p, pic, beyond);
    CodegenLetters(p, pic);
    LevelsLetters(p, pic, longMax);
    LastLetters(p, pic);
  }

  lemma TargetT(p: string, pic: bool, beyond: string)
    requires |p| >= 2 && p[0] == '-' && p[1] == 't'
    ensures TranslateTarget(p, pic, beyond) ==
      if "-target=" <= p then Some(Emit(["-mtriple=" + p[8..]], pic))
      else None
  {
    OtherLetter(p);
    Whole(p, "target=");
    assert "-" + "target=" == "-target=";
  }

  /** Options that begin with `-o`. */
  lemma OptionsO(p: string, pic: bool, beyond: string, longMax: nat)
    requires |p| >= 2 && p[0] == '-' && p[1] == 'o'
    ensures TranslateArg(p, pic, beyond, longMax) ==
      if p == "-o" || "-os=" <= p then Exit
      else Emit([p], pic)
  {
    ChecksLetters(p, pic);
    ColorLetters(p, pic);
    LinkageLetters(p, pic);
    DebugInfoLetters(p, pic);
    OutputLetters(p, pic);
    TargetO(p, pic, beyond);
    CodegenLetters(p, pic);
    LevelsLetters(p, pic, longMax);
    LastLetters(p, pic);
  }

  lemma TargetO(p: string, pic: bool, beyond: string)
    requires |p| >= 2 && p[0] == '-' && p[1] == 'o'
    ensures TranslateTarget(p, pic, beyond) ==
      if p == "-o" || "-os=" <= p then Some(Exit)
      else None
  {
    OtherLetter(p);
    Whole(p, "o");
    Whole(p, "os=");
    assert "-" + "o" == "-o" && "-" + "os=" == "-os=";
  }

  /** Options that begin with `-i`. */
  lemma OptionsI(p: string, pic: bool, beyond: string, longMax: nat)
    requires |p| >= 2 && p[0] == '-' && p[1] == 'i'
    ensures TranslateArg(p, pic, beyond, longMax) ==
      if p == "-inline" then Emit(["-enable-inlining", "-Hkeep-all-bodies"], pic)
      else Emit([p], pic)
  {
    ChecksLetters(p, pic);
    ColorLetters(p, pic);
    LinkageLetters(p, pic);
    DebugInfoLetters(p, pic);
    OutputLetters(p, pic);
    TargetLetters(p, pic, beyond);
    CodegenI(p, pic);
    LevelsLetters(p, pic, longMax);
    LastLetters(p, pic);
  }

  lemma CodegenI(p: string, pic: bool)
    requires |p| >= 2 && p[0] == '-' && p[1] == 'i'
    ensures TranslateCodegen(p, pic) ==
      if p == "-inline" then Some(Emit(["-enable-inlining", "-Hkeep-all-bodies"], pic))
      else None
  {
    OtherLetter(p);
    Whole(p, "inline");
    assert "-" + "inline" == "-inline";
  }

  /** Options that begin with `-l`. */
  lemma OptionsL(p: string, pic: bool, beyond: string, longMax: nat)
    requires |p| >= 2 && p[0] == '-' && p[1] == 'l'
    ensures TranslateArg(p, pic, beyond, longMax) ==
      if p == "-lib" then Emit(["-lib", "-oq", "-cleanup-obj"], pic)
      else Emit([p], pic)
  {
    ChecksLetters(p, pic);
    ColorLetters(p, pic);
    LinkageLetters(p, pic);
    DebugInfoLetters(p, pic);
    OutputLetters(p, pic);
    TargetLetters(p, pic, beyond);
    CodegenL(p, pic);
    LevelsLetters(p, pic, longMax);
    LastLetters(p, pic);
  }

  lemma CodegenL(p: string, pic: bool)
    requires |p| >= 2 && p[0] == '-' && p[1] == 'l'
    ensures TranslateCodegen(p, pic) ==
      if p == "-lib" then Some(Emit(["-lib", "-oq", "-cleanup-obj"], pic))
      else None
  {
    OtherLetter(p);
    Whole(p, "lib");
    assert "-" + "lib" == "-lib";
  }

  /** Options that begin with `-n`. */
  lemma OptionsN(p: string, pic: bool, beyond: string, longMax: nat)
    requires |p| >= 2 && p[0] == '-' && p[1] == 'n'
    ensures TranslateArg(p, pic, beyond, longMax) ==
      if p == "-nofloat" then Emit([], pic)
      else if p == "-noboundscheck" then Emit(["-boundscheck=off"], pic)
      else if p == "-nothrow" then Emit(["-fno-exceptions"], pic)
      else Emit([p], pic)
  {
    ChecksLetters(p, pic);
    ColorLetters(p, pic);
    LinkageLetters(p, pic);
    DebugInfoLetters(p, pic);
    OutputLetters(p, pic);
    TargetLetters(p, pic, beyond);
    CodegenN(p, pic);
    LevelsLetters(p, pic, longMax);
    LastLetters(p, pic);
  }

  lemma CodegenN(p: string, pic: bool)
    requires |p| >= 2 && p[0] == '-' && p[1] == 'n'
    ensures TranslateCodegen(p, pic) ==
      if p == "-nofloat" then Some(Emit([], pic))
      else if p == "-noboundscheck" then Some(Emit(["-boundscheck=off"], pic))
      else if p == "-nothrow" then Some(Emit(["-fno-exceptions"], pic))
      else None
  {
    OtherLetter(p);
    Whole(p, "nofloat");
    Whole(p, "noboundscheck");
    Whole(p, "nothrow");
    assert "-" + "nofloat" == "-nofloat" && "-" + "noboundscheck" == "-noboundscheck" && "-" + "nothrow" == "-nothrow";
  }

  /** Options that begin with `-q`. */
  lemma OptionsQ(p: string, pic: bool, beyond: string, longMax: nat)
    requires |p| >= 2 && p[0] == '-' && p[1] == 'q'
    ensures TranslateArg(p, pic, beyond, longMax) ==
      if p == "-quiet" then Emit([], pic)
      else Emit([p], pic)
  {
    ChecksLetters(p, pic);
    ColorLetters(p, pic);
    LinkageLetters(p, pic);
    DebugInfoLetters(p, pic);
    OutputLetters(p, pic);
    TargetLetters(p, pic, beyond);
    CodegenQ(p, pic);
    LevelsLetters(p, pic, longMax);
    LastLetters(p, pic);
  }

  lemma CodegenQ(p: string, pic: bool)
    requires |p| >= 2 && p[0] == '-' && p[1] == 'q'
    ensures TranslateCodegen(p, pic) ==
      if p == "-quiet" then Some(Emit([], pic))
      else None
  {
    OtherLetter(p);
    Whole(p, "quiet");
    assert "-" + "quiet" == "-quiet";
  }

  /** Options that begin with `-h`. */
  lemma OptionsH(p: string, pic: bool, beyond: string, longMax: nat)
    requires |p| >= 2 && p[0] == '-' && p[1] == 'h'
    ensures TranslateArg(p, pic, beyond, longMax) ==
      if p == "-h" then Exit
      else Emit([p], pic)
  {
    ChecksLetters(p, pic);
    ColorLetters(p, pic);
    LinkageLetters(p, pic);
    DebugInfoLetters(p, pic);
    OutputLetters(p, pic);
    TargetLetters(p, pic, beyond);
    CodegenLetters(p, pic);
    LevelsLetters(p, pic, longMax);
    LastH(p, pic);
  }

  lemma LastH(p: string, pic: bool)
    requires |p| >= 2 && p[0] == '-' && p[1] == 'h'
    ensures TranslateLast(p, pic) ==
      if p == "-h" then Exit
      else Emit([p], pic)
  {
    OtherLetter(p);
    Whole(p, "h");
    assert "-" + "h" == "-h";
  }

  /** Options that begin with `-r`. */
  lemma OptionsR(p: string, pic: bool, beyond: string, longMax: nat)
    requires |p| >= 2 && p[0] == '-' && p[1] == 'r'
    ensures TranslateArg(p, pic, beyond, longMax) ==
      if p == "-run" then Run
      else Emit([p], pic)
  {
    ChecksLetters(p, pic);
    ColorLetters(p, pic);
    LinkageLetters(p, pic);
    DebugInfoLetters(p, pic);
    OutputLetters(p, pic);
    TargetLetters(p, pic, beyond);
    CodegenLetters(p, pic);
    LevelsLetters(p, pic, longMax);
    LastR(p, pic);
  }

  lemma LastR(p: string, pic: bool)
    requires |p| >= 2 && p[0] == '-' && p[1] == 'r'
    ensures TranslateLast(p, pic) ==
      if p == "-run" then Run
      else Emit([p], pic)
  {
    OtherLetter(p);
    Whole(p, "run");
    assert "-" + "run" == "-run";
  }

  lemma ChecksC(p: string, pic: bool)
    requires |p| >= 2 && p[0] == '-' && p[1] == 'c' && !("-check=" <= p)
    ensures TranslateChecks(p, pic).None?
  {
    OtherLetter(p);
    Whole(p, "check=");
    assert "-" + "check=" == "-check=";
  }

  /** `-check=`: every value by its spelling; any other is passed on as it is. */
  lemma CheckOptions(value: string, pic: bool, beyond: string, longMax: nat)
    ensures TranslateArg("-check=" + value, pic, beyond, longMax) ==
      if value == "on" then
        Emit(["-boundscheck=on", "-enable-asserts", "-enable-preconditions", "-enable-invariants",
              "-enable-postconditions", "-enable-switch-errors"], pic)
      else if value == "off" then
        Emit(["-boundscheck=off", "-disable-asserts", "-disable-preconditions", "-disable-invariants",
              "-disable-postconditions", "-disable-switch-errors"], pic)
      else if value == "bounds" || value == "bounds=on" then Emit(["-boundscheck=on"], pic)
      else if value == "bounds=off" then Emit(["-boundscheck=off"], pic)
      else if value == "assert" || value == "assert=on" then Emit(["-enable-asserts"], pic)
      else if value == "assert=off" then Emit(["-disable-asserts"], pic)
      else if value == "in" || value == "in=on" then Emit(["-enable-preconditions"], pic)
      else if value == "in=off" then Emit(["-disable-preconditions"], pic)
      else if value == "invariant" || value == "invariant=on" then Emit(["-enable-invariants"], pic)
      else if value == "invariant=off" then Emit(["-disable-invariants"], pic)
      else if value == "out" || value == "out=on" then Emit(["-enable-postconditions"], pic)
      else if value == "out=off" then Emit(["-disable-postconditions"], pic)
      else if value == "switch" || value == "switch=on" then Emit(["-enable-switch-errors"], pic)
      else if value == "switch=off" then Emit(["-disable-switch-errors"], pic)
      else Emit(["-check=" + value], pic)
  {
    var p := "-check=" + value;
    Whole(p, "check=");
    Whole(p, "vdmd");
    assert "-" + "check=" == "-check=" && p[1] == 'c' && ("-" + "vdmd")[1] == 'v' && p[7..] == value;
    CheckValue(value);
  }

  lemma CheckValue(value: string)
    ensures TranslateCheck(value) ==
      if value == "on" then
        Some(["-boundscheck=on", "-enable-asserts", "-enable-preconditions", "-enable-invariants",
              "-enable-postconditions", "-enable-switch-errors"])
      else if value == "off" then
        Some(["-boundscheck=off", "-disable-asserts", "-disable-preconditions", "-disable-invariants",
              "-disable-postconditions", "-disable-switch-errors"])
      else if value == "bounds" || value == "bounds=on" then Some(["-boundscheck=on"])
      else if value == "bounds=off" then Some(["-boundscheck=off"])
      else if value == "assert" || value == "assert=on" then Some(["-enable-asserts"])
      else if value == "assert=off" then Some(["-disable-asserts"])
      else if value == "in" || value == "in=on" then Some(["-enable-preconditions"])
      else if value == "in=off" then Some(["-disable-preconditions"])
      else if value == "invariant" || value == "invariant=on" then Some(["-enable-invariants"])
      else if value == "invariant=off" then Some(["-disable-invariants"])
      else if value == "out" || value == "out=on" then Some(["-enable-postconditions"])
      else if value == "out=off" then Some(["-disable-postconditions"])
      else if value == "switch" || value == "switch=on" then Some(["-enable-switch-errors"])
      else if value == "switch=off" then Some(["-disable-switch-errors"])
      else None
  {
    var n := |value|;
    if value == "on" || value == "off" {
    } else if n > 3 && value[n - 3..] == "=on" {
      OnlyOn(value);
      CheckOn(value, value[..n - 3]);
    } else if n > 4 && value[n - 4..] == "=off" {
      OnlyOff(value);
      CheckOff(value, value[..n - 4]);
    } else {
      OnlyPlain(value);
      CheckPlain(value);
    }
  }

  lemma OnlyOn(value: string)
    requires |value| > 3 && value[|value| - 3..] == "=on"
    ensures value != "bounds" && value != "assert" && value != "in"
    ensures value != "invariant" && value != "out" && value != "switch"
    ensures value != "bounds=off" && value != "assert=off" && value != "in=off"
    ensures value != "invariant=off" && value != "out=off" && value != "switch=off"
  {
    assert value[|value| - 1] == value[|value| - 3..][2] == 'n';
  }

  lemma OnlyOff(value: string)
    requires |value| > 4 && value[|value| - 4..] == "=off"
    ensures value != "bounds" && value != "assert" && value != "in"
    ensures value != "invariant" && value != "out" && value != "switch"
    ensures value != "bounds=on" && value != "assert=on" && value != "in=on"
    ensures value != "invariant=on" && value != "out=on" && value != "switch=on"
  {
    assert value[|value| - 1] == value[|value| - 4..][3] == 'f';
  }

  lemma OnlyPlain(value: string)
    requires |value| > 3 ==> value[|value| - 3..] != "=on"
    requires |value| > 4 ==> value[|value| - 4..] != "=off"
    ensures value != "bounds=on" && value != "assert=on" && value != "in=on"
    ensures value != "invariant=on" && value != "out=on" && value != "switch=on"
    ensures value != "bounds=off" && value != "assert=off" && value != "in=off"
    ensures value != "invariant=off" && value != "out=off" && value != "switch=off"
  {
    assert "bounds=on"[6..] == "=on" && "assert=on"[6..] == "=on" && "in=on"[2..] == "=on";
    assert "invariant=on"[9..] == "=on" && "out=on"[3..] == "=on" && "switch=on"[6..] == "=on";
    assert "bounds=off"[6..] == "=off" && "assert=off"[6..] == "=off" && "in=off"[2..] == "=off";
    assert "invariant=off"[9..] == "=off" && "out=off"[3..] == "=off" && "switch=off"[6..] == "=off";
  }

  lemma CheckOn(value: string, kind: string)
    requires value == kind + "=on" && kind != ""
    ensures TranslateCheck(value) ==
      if value == "bounds=on" then Some(["-boundscheck=on"])
      else if value == "assert=on" then Some(["-enable-asserts"])
      else if value == "in=on" then Some(["-enable-preconditions"])
      else if value == "invariant=on" then Some(["-enable-invariants"])
      else if value == "out=on" then Some(["-enable-postconditions"])
      else if value == "switch=on" then Some(["-enable-switch-errors"])
      else None
  {
    TakeOn(value, kind);
    KindOn(kind);
    NamesOn(value, kind);
  }

  lemma TakeOn(value: string, kind: string)
    requires value == kind + "=on" && kind != ""
    ensures TranslateCheck(value) == TranslateKind(kind, true)
  {
    assert value[|value| - 3..] == "=on" && value[..|value| - 3] == kind && value != "on" && value != "off";
  }

  lemma CheckOff(value: string, kind: string)
    requires value == kind + "=off" && kind != ""
    ensures TranslateCheck(value) ==
      if value == "bounds=off" then Some(["-boundscheck=off"])
      else if value == "assert=off" then Some(["-disable-asserts"])
      else if value == "in=off" then Some(["-disable-preconditions"])
      else if value == "invariant=off" then Some(["-disable-invariants"])
      else if value == "out=off" then Some(["-disable-postconditions"])
      else if value == "switch=off" then Some(["-disable-switch-errors"])
      else None
  {
    TakeOff(value, kind);
    KindOff(kind);
    NamesOff(value, kind);
  }

  lemma TakeOff(value: string, kind: string)
    requires value == kind + "=off" && kind != ""
    ensures TranslateCheck(value) == TranslateKind(kind, false)
  {
    assert value[|value| - 4..] == "=off" && value[..|value| - 4] == kind && value != "on" && value != "off";
    assert value[|value| - 3..][0] == 'o';
  }

  lemma KindOn(kind: string)
    ensures TranslateKind(kind, true) ==
      if kind == "bounds" then Some(["-boundscheck=on"])
      else if kind == "assert" then Some(["-enable-asserts"])
      else if kind == "in" then Some(["-enable-preconditions"])
      else if kind == "invariant" then Some(["-enable-invariants"])
      else if kind == "out" then Some(["-enable-postconditions"])
      else if kind == "switch" then Some(["-enable-switch-errors"])
      else None
  {
    assert "-enable-" + "asserts" == "-enable-asserts" && "-enable-" + "preconditions" == "-enable-preconditions";
    assert "-enable-" + "invariants" == "-enable-invariants" && "-enable-" + "postconditions" == "-enable-postconditions" && "-enable-" + "switch-errors" == "-enable-switch-errors";
  }

  lemma KindOff(kind: string)
    ensures TranslateKind(kind, false) ==
      if kind == "bounds" then Some(["-boundscheck=off"])
      else if kind == "assert" then Some(["-disable-asserts"])
      else if kind == "in" then Some(["-disable-preconditions"])
      else if kind == "invariant" then Some(["-disable-invariants"])
      else if kind == "out" then Some(["-disable-postconditions"])
      else if kind == "switch" then Some(["-disable-switch-errors"])
      else None
  {
    assert "-disable-" + "asserts" == "-disable-asserts" && "-disable-" + "preconditions" == "-disable-preconditions";
    assert "-disable-" + "invariants" == "-disable-invariants" && "-disable-" + "postconditions" == "-disable-postconditions" && "-disable-" + "switch-errors" == "-disable-switch-errors";
  }

  lemma NamesOn(value: string, kind: string)
    requires value == kind + "=on"
    ensures (value == "bounds=on") == (kind == "bounds") && (value == "assert=on") == (kind == "assert")
    ensures (value == "in=on") == (kind == "in") && (value == "invariant=on") == (kind == "invariant")
    ensures (value == "out=on") == (kind == "out") && (value == "switch=on") == (kind == "switch")
  {
    Cut(value, kind, "bounds", "=on");
    Cut(value, kind, "assert", "=on");
    Cut(value, kind, "in", "=on");
    Cut(value, kind, "invariant", "=on");
    Cut(value, kind, "out", "=on");
    Cut(value, kind, "switch", "=on");
    assert "bounds" + "=on" == "bounds=on" && "assert" + "=on" == "assert=on" && "in" + "=on" == "in=on";
    assert "invariant" + "=on" == "invariant=on" && "out" + "=on" == "out=on" && "switch" + "=on" == "switch=on";
  }

  lemma NamesOff(value: string, kind: string)
    requires value == kind + "=off"
    ensures (value == "bounds=off") == (kind == "bounds") && (value == "assert=off") == (kind == "assert")
    ensures (value == "in=off") == (kind == "in") && (value == "invariant=off") == (kind == "invariant")
    ensures (value == "out=off") == (kind == "out") && (value == "switch=off") == (kind == "switch")
  {
    Cut(value, kind, "bounds", "=off");
    Cut(value, kind, "assert", "=off");
    Cut(value, kind, "in", "=off");
    Cut(value, kind, "invariant", "=off");
    Cut(value, kind, "out", "=off");
    Cut(value, kind, "switch", "=off");
    assert "bounds" + "=off" == "bounds=off" && "assert" + "=off" == "assert=off" && "in" + "=off" == "in=off";
    assert "invariant" + "=off" == "invariant=off" && "out" + "=off" == "out=off" && "switch" + "=off" == "switch=off";
  }

  lemma Cut(value: string, kind: string, name: string, suffix: string)
    requires value == kind + suffix
    ensures value == name + suffix <==> kind == name
  {
    if value == name + suffix {
      assert kind == value[..|value| - |suffix|] == name;
    }
  }

  lemma CheckPlain(value: string)
    requires value != "on" && value != "off"
    requires |value| > 3 ==> value[|value| - 3..] != "=on"
    requires |value| > 4 ==> value[|value| - 4..] != "=off"
    ensures TranslateCheck(value) ==
      if value == "bounds" then Some(["-boundscheck=on"])
      else if value == "assert" then Some(["-enable-asserts"])
      else if value == "in" then Some(["-enable-preconditions"])
      else if value == "invariant" then Some(["-enable-invariants"])
      else if value == "out" then Some(["-enable-postconditions"])
      else if value == "switch" then Some(["-enable-switch-errors"])
      else None
  {
    KindOn(value);
  }

  /** The bare dash, and what begins with two. */
  lemma OptionsDash(p: string, pic: bool, beyond: string, longMax: nat)
    requires p != "" && p[0] == '-' && (|p| >= 2 ==> p[1] == '-')
    ensures TranslateArg(p, pic, beyond, longMax) ==
      if p == "-" then Emit(["-"], pic)
      else if p == "--b" then Emit(["-hidden-debug-b"], pic)
      else if p == "--c" then Emit(["-hidden-debug-c"], pic)
      else if p == "--f" then Emit(["-hidden-debug-f"], pic)
      else if p == "--r" then Emit(["-hidden-debug-r"], pic)
      else if p == "--x" then Emit(["-hidden-debug-x"], pic)
      else if p == "--y" then Emit(["-hidden-debug-y"], pic)
      else if p == "--help" || p == "--version" then Exit
      else Emit([p], pic)
  {
    if |p| >= 2 {
      ChecksLetters(p, pic);
      ColorLetters(p, pic);
      LinkageLetters(p, pic);
      DebugInfoLetters(p, pic);
      OutputLetters(p, pic);
      TargetLetters(p, pic, beyond);
      CodegenLetters(p, pic);
      LevelsLetters(p, pic, longMax);
      LastDash(p, pic);
    } else {
      Bare(pic, beyond, longMax);
      assert p == "-";
    }
  }

  lemma LastDash(p: string, pic: bool)
    requires |p| >= 2 && p[0] == '-' && p[1] == '-'
    ensures TranslateLast(p, pic) ==
      if p == "--b" then Emit(["-hidden-debug-b"], pic)
      else if p == "--c" then Emit(["-hidden-debug-c"], pic)
      else if p == "--f" then Emit(["-hidden-debug-f"], pic)
      else if p == "--r" then Emit(["-hidden-debug-r"], pic)
      else if p == "--x" then Emit(["-hidden-debug-x"], pic)
      else if p == "--y" then Emit(["-hidden-debug-y"], pic)
      else if p == "--help" || p == "--version" then Exit
      else Emit([p], pic)
  {
    OtherLetter(p);
    Whole(p, "-help");
    Whole(p, "-version");
    assert "-" + "-help" == "--help" && "-" + "-version" == "--version";
    assert "-hidden-debug-" + "b" == "-hidden-debug-b" && "-hidden-debug-" + "c" == "-hidden-debug-c";
    assert "-hidden-debug-" + "f" == "-hidden-debug-f" && "-hidden-debug-" + "r" == "-hidden-debug-r";
    assert "-hidden-debug-" + "x" == "-hidden-debug-x" && "-hidden-debug-" + "y" == "-hidden-debug-y";
    if |p| == 3 {
      assert p[2..] == [p[2]];
    }
  }

  lemma Bare(pic: bool, beyond: string, longMax: nat)
    ensures TranslateArg("-", pic, beyond, longMax) == Emit(["-"], pic)
  {
    assert "-"[1..] == "";
  }

  /** `-C...` is passed on with a dash in place of `-C`. */
  lemma OptionsCapitalC(p: string, pic: bool, beyond: string, longMax: nat)
    requires |p| >= 2 && p[0] == '-' && p[1] == 'C'
    ensures TranslateArg(p, pic, beyond, longMax) == Emit(["-" + p[2..]], pic)
  {
    ChecksLetters(p, pic);
    ColorLetters(p, pic);
    LinkageLetters(p, pic);
    DebugInfoLetters(p, pic);
    OutputLetters(p, pic);
    TargetLetters(p, pic, beyond);
    CodegenLetters(p, pic);
    LevelsLetters(p, pic, longMax);
    OtherLetter(p);
  }

  /** What does not begin with a dash is passed on, or names the output if it ends in `.exe`, in any case. */
  lemma NoOption(p: string, pic: bool, beyond: string, longMax: nat)
    requires p == "" || p[0] != '-'
    ensures TranslateArg(p, pic, beyond, longMax) ==
      if |p| >= 4 && p[|p| - 4] == '.' && (p[|p| - 3] == 'e' || p[|p| - 3] == 'E')
        && (p[|p| - 2] == 'x' || p[|p| - 2] == 'X') && (p[|p| - 1] == 'e' || p[|p| - 1] == 'E')
      then Emit(["-of=" + p], pic)
      else Emit([p], pic)
  {
    ExeExactly(p);
  }

  predicate EndsInExe(p: string) {
    && |p| >= 4 && p[|p| - 4] == '.' && (p[|p| - 3] == 'e' || p[|p| - 3] == 'E')
    && (p[|p| - 2] == 'x' || p[|p| - 2] == 'X') && (p[|p| - 1] == 'e' || p[|p| - 1] == 'E')
  }

  lemma ExeExactly(p: string)
    ensures IsExe(Extension(p)) <==> EndsInExe(p)
  {
    LastComponent(p);
    LastDot(Basename(p));
  }

  lemma {:induction false} LastComponent(p: string)
    ensures EndsInExe(Basename(p)) <==> EndsInExe(p)
  {
    if '/' in p {
      LastComponent(p[1..]);
      if |p| == 4 && p[0] != '/' {
        assert '/' in p[1..];
      }
    }
  }

  lemma {:induction false} LastDot(file: string)
    ensures IsExe(FromLastDot(file)) <==> EndsInExe(file)
  {
    if file != "" {
      if file[0] == '.' && '.' !in file[1..] {
        if |file| > 4 { assert file[|file| - 4] in file[1..]; }
      } else {
        LastDot(file[1..]);
      }
    }
  }

  /** A named version or debug condition is passed on under LDC's option, whatever its name. */
  lemma NamedCondition(s: string, pic: bool, beyond: string, longMax: nat)
    requires (s == "" || !('0' <= s[0] <= '9')) && '\0' !in s
    ensures TranslateArg("-version=" + s, pic, beyond, longMax) == Emit(["-d-version=" + s], pic)
    ensures TranslateArg("-debug=" + s, pic, beyond, longMax) == Emit(["-d-debug=" + s], pic)
  {
    VersionNamed(s, pic, beyond, longMax);
    DebugNamed(s, pic, beyond, longMax);
  }

  lemma VersionNamed(s: string, pic: bool, beyond: string, longMax: nat)
    requires s == "" || !('0' <= s[0] <= '9')
    ensures TranslateArg("-version=" + s, pic, beyond, longMax) == Emit(["-d-version=" + s], pic)
  {
    var p := "-version=" + s;
    assert p[9..] == s && p[1] == 'v' && p[2] == 'e' && p[3] == 'r' && p[4] == 's';
    NotBefore(p);
    OptionsV(p, pic, beyond, longMax);
  }

  lemma NotBefore(p: string)
    requires |p| > 4 && p[1] == 'v' && p[2] == 'e' && p[3] == 'r' && p[4] == 's'
    ensures p != "-vdmd" && p != "-vasm" && p != "-vtls" && !("-visibility=" <= p) && !("-verrors" <= p)
  {
    assert "-vdmd"[2] == 'd' && "-vasm"[2] == 'a' && "-vtls"[2] == 't' && "-visibility="[2] == 'i' && "-verrors"[4] == 'r';
  }

  lemma DebugNamed(s: string, pic: bool, beyond: string, longMax: nat)
    requires (s == "" || !('0' <= s[0] <= '9')) && '\0' !in s
    ensures TranslateArg("-debug=" + s, pic, beyond, longMax) == Emit(["-d-debug=" + s], pic)
  {
    var p := "-debug=" + s;
    assert p[7..] == s && p[1] == 'd' && p[2] == 'e' && "-dylib"[2] == 'y';
    assert '\0' !in p by {
      assert '\0' !in "-debug=";
    }
    OptionsD(p, pic, beyond, longMax);
  }
}
