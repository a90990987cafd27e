/** What becomes of a numeric `-debug=` or `-version=` option (driver/ldmd.cpp). */
module LevelTranslation {

  import opened CStrings
  import opened Common
  import opened Ldmd
  import Levels

  function Prefix(debug: bool): string {
    if debug then "-debug=" else "-version="
  }

  function LdcPrefix(debug: bool): string {
    if debug then "-d-debug=" else "-d-version="
  }

  ghost predicate IsLevel(s: string) {
    Levels.AllDigits(s) && Levels.Value(s) <= Levels.INT_MAX
  }

  /** A level is passed on to LDC as the same number without leading zeros; what starts with a digit but is no level
      is passed on as it is. */
  lemma LevelTranslated(debug: bool, s: string, pic: bool, beyond: string, longMax: nat)
    requires s != "" && IsDigit(s[0]) && NUL !in s && longMax >= Levels.INT_MAX
    ensures TranslateArg(Prefix(debug) + s, pic, beyond, longMax) ==
      Emit([Normalised(debug, s)], pic)
  {
    LevelOutcome(debug, s, pic, longMax);
    OnlyLevels(debug, s, pic, beyond, longMax, Emit([Normalised(debug, s)], pic));
  }

  /** The option for LDC. */
  ghost function Normalised(debug: bool, s: string): string {
    if IsLevel(s) then LdcPrefix(debug) + Levels.WithoutLeadingZeros(s) else Prefix(debug) + s
  }

  lemma LevelOutcome(debug: bool, s: string, pic: bool, longMax: nat)
    requires s != "" && IsDigit(s[0]) && NUL !in s && longMax >= Levels.INT_MAX
    ensures TranslateLevels(Prefix(debug) + s, pic, longMax) == Some(Emit([Normalised(debug, s)], pic))
  {
    TakenByLevels(debug, s, pic, longMax);
    OneLevel(Prefix(debug) + s, if debug then 7 else 9, LdcPrefix(debug), s, longMax);
  }

  /** Reading the printed option again gives the same level. */
  lemma LevelKept(s: string)
    requires s != "" && Levels.AllDigits(s)
    ensures Levels.AllDigits(Levels.WithoutLeadingZeros(s))
    ensures Levels.Value(Levels.WithoutLeadingZeros(s)) == Levels.Value(s)
  {
    Levels.PrintedBack(s);
    Levels.PrintIsDigits(Levels.Value(s));
  }

  lemma OneLevel(p: string, i: nat, option: string, s: string, longMax: nat)
    requires i < |p| && p[i..] == s && IsDigit(s[0]) && NUL !in p && longMax >= Levels.INT_MAX
    ensures TranslateLevel(p, i, option, longMax) ==
      [if IsLevel(s) then option + Levels.WithoutLeadingZeros(s) else p]
  {
    assert p[i] == s[0];
    Levels.AcceptedExactly(p, i, longMax);
    if IsLevel(s) {
      Levels.PrintedBack(s);
    }
  }

  lemma TakenByLevels(debug: bool, s: string, pic: bool, longMax: nat)
    requires s != "" && IsDigit(s[0])
    ensures
      var p := Prefix(debug) + s;
      p[if debug then 7 else 9..] == s &&
      TranslateLevels(p, pic, longMax) ==
      Some(Emit(TranslateLevel(p, if debug then 7 else 9, LdcPrefix(debug), longMax), pic))
  {
    var p := Prefix(debug) + s;
    if debug {
      assert p[1..] == "debug" + ("=" + s);
      assert p[6] == '=';
    } else {
      assert p[1..] == "version" + ("=" + s);
      assert p[8] == '=' && p[1] == 'v';
    }
  }

  /** No group in front takes the option. */
  lemma OnlyLevels(debug: bool, s: string, pic: bool, beyond: string, longMax: nat, outcome: Outcome)
    requires s != "" && IsDigit(s[0]) && TranslateLevels(Prefix(debug) + s, pic, longMax) == Some(outcome)
    ensures TranslateArg(Prefix(debug) + s, pic, beyond, longMax) == outcome
  {
    var p := Prefix(debug) + s;
    NotEarly(debug, s, pic);
    NotLate(debug, s, pic, beyond);
  }

  lemma NotEarly(debug: bool, s: string, pic: bool)
    requires s != "" && IsDigit(s[0])
    ensures EarlyGroups(Prefix(debug) + s, pic).None?
  {
    var q := (Prefix(debug) + s)[1..];
    Letters(debug, s);
    Differs(q, "dylib", 1);
    Differs(q, "vdmd", 1);
    Differs(q, "visibility=", 1);
    NotInEarlyGroups(Prefix(debug) + s, pic);
  }

  lemma NotInEarlyGroups(p: string, pic: bool)
    requires |p| > 4 && p[0] == '-' && (p[1..][0] == 'd' || p[1..][0] == 'v')
    requires p[1..] != "dylib" && p[1..] != "vdmd" && !("visibility=" <= p[1..])
    ensures EarlyGroups(p, pic).None?
  {
    var q := p[1..];
    assert forall w: string :: w != "" && w <= q ==> w[0] == q[0];
  }

  lemma NotLate(debug: bool, s: string, pic: bool, beyond: string)
    requires s != "" && IsDigit(s[0])
    ensures
      var p := Prefix(debug) + s;
      TranslateOutput(p, pic).None? && TranslateTarget(p, pic, beyond).None? && TranslateCodegen(p, pic).None?
  {
    var q := (Prefix(debug) + s)[1..];
    Letters(debug, s);
    Differs(q, "vasm", 1);
    Differs(q, "vtls", 1);
    Differs(q, "verrors", if debug then 0 else 3);
    NotInLateGroups(Prefix(debug) + s, pic, beyond);
  }

  lemma NotInLateGroups(p: string, pic: bool, beyond: string)
    requires |p| > 4 && p[0] == '-' && (p[1..][0] == 'd' || p[1..][0] == 'v')
    requires p[1..] != "vasm" && p[1..] != "vtls" && !("verrors" <= p[1..])
    ensures TranslateOutput(p, pic).None? && TranslateTarget(p, pic, beyond).None? && TranslateCodegen(p, pic).None?
  {
    var q := p[1..];
    assert forall w: string :: w != "" && w <= q ==> w[0] == q[0];
  }

  /** The option is neither w nor starts with it. */
  lemma Differs(q: string, w: string, k: nat)
    requires k < |q| && k < |w| && q[k] != w[k]
    ensures q != w && !(w <= q)
  {
  }

  lemma Letters(debug: bool, s: string)
    requires s != ""
    ensures
      var q := (Prefix(debug) + s)[1..];
      |q| > 6 && q[0] == (if debug then 'd' else 'v') && q[1] == 'e' && q[3] == if debug then 'u' else 's'
  {
  }
}
