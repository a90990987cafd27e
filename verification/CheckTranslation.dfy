/** The run-time check options of DMD, their translation by ldmd, and the evaluation of the result by LDC. */
module CheckTranslation {

  import L = Ldmd
  import opened CheckFlags
  import opened Common

  datatype Kind = Assert | Bounds | In | Invariant | Out | Switch

  /** The recognised options: -check=on, -check=<kind>[=on|=off], -boundscheck=<when> and -noboundscheck. */
  datatype DmdOption = All(on: bool) | One(kind: Kind, value: Option<bool>) | BoundsCheck(check: Check) | NoBoundsCheck

  function KindName(kind: Kind): string {
    match kind
    case Assert => "assert"
    case Bounds => "bounds"
    case In => "in"
    case Invariant => "invariant"
    case Out => "out"
    case Switch => "switch"
  }

  function Suffix(value: Option<bool>): string {
    match value
    case None => ""
    case Some(b) => if b then "=on" else "=off"
  }

  function When(check: Check): string
    requires !check.Default?
  {
    if check.On? then "on" else if check.Off? then "off" else "safeonly"
  }

  predicate WellFormed(o: DmdOption) {
    o.BoundsCheck? ==> !o.check.Default?
  }

  /** The option as it is written. */
  function Render(o: DmdOption): string
    requires WellFormed(o)
  {
    match o
    case All(on) => if on then "-check=on" else "-check=off"
    case One(kind, value) => "-check=" + (KindName(kind) + Suffix(value))
    case BoundsCheck(check) => "-boundscheck=" + When(check)
    case NoBoundsCheck => "-noboundscheck"
  }

  /** What the option sets if -boundscheck and -check=bounds set the same, as in LDC. */
  function Applied(st: Settings, o: DmdOption): Settings {
    match o
    case All(on) =>
      var c := FromBool(on);
      Settings(c, c, c, c, c, c)
    case One(kind, value) =>
      var c := FromBool(value != Some(false));
      (match kind
       case Assert => st.(asserts := c)
       case Bounds => st.(bounds := c)
       case In => st.(useIn := c)
       case Invariant => st.(invariants := c)
       case Out => st.(useOut := c)
       case Switch => st.(switches := c))
    case BoundsCheck(check) => st.(bounds := check)
    case NoBoundsCheck => st.(bounds := Off)
  }

  function AppliedAll(st: Settings, options: seq<DmdOption>): Settings
    decreases |options|
  {
    if options == [] then st else AppliedAll(Applied(st, options[0]), options[1..])
  }

  // ---------------------------------------------------------------- LDC's side

  lemma {:induction false} NameWithoutValue(s: string)
    requires '=' !in s
    ensures NameOf(s) == s && ValueOf(s) == ""
  {
    if s != "" {
      assert s[0] in s && forall c <- s[1..] :: c in s;
      NameWithoutValue(s[1..]);
      assert s == [s[0]] + s[1..];
    }
  }

  lemma {:induction false} NameWithValue(name: string, value: string)
    requires '=' !in name
    ensures NameOf(name + "=" + value) == name && ValueOf(name + "=" + value) == value
  {
    var s := name + "=" + value;
    if name == "" {
      assert s[0] == '=' && s[1..] == value;
    } else {
      assert name[0] in name && forall c <- name[1..] :: c in name;
      NameWithValue(name[1..], value);
      assert s[0] == name[0] && s[1..] == name[1..] + "=" + value;
      assert name == [name[0]] + name[1..];
    }
  }

  function LdcName(kind: Kind): string
    requires !kind.Bounds?
  {
    match kind
    case Assert => "asserts"
    case In => "preconditions"
    case Invariant => "invariants"
    case Out => "postconditions"
    case Switch => "switch-errors"
  }

  function LdcOption(kind: Kind, b: bool): string {
    if kind.Bounds? then (if b then "boundscheck=on" else "boundscheck=off")
    else SwitchFor(LdcName(kind), b)
  }

  function SwitchFor(base: string, b: bool): string {
    (if b then "enable-" else "disable-") + base
  }

  lemma FlagValue(base: string, b: bool)
    ensures BaseOf(SwitchFor(base, b)) == base
    ensures ParseFlag(base, SwitchFor(base, b), "") == Some(b)
  {
    assert "enable-"[0] == 'e' && "disable-"[0] == 'd';
    assert ("enable-" + base)[0] == 'e' && ("disable-" + base)[0] == 'd';
  }

  lemma EvalFlag(st: Settings, base: string, b: bool)
    requires IsFlag(base)
    ensures Eval(st, SwitchFor(base, b)) == Some(SetFlag(st, base, FromBool(b)))
  {
    NoEquals(base);
    assert '=' !in SwitchFor(base, b) by {
      assert '=' !in "enable-" && '=' !in "disable-";
    }
    NameWithoutValue(SwitchFor(base, b));
    FlagValue(base, b);
    assert SwitchFor(base, b)[0] != 'b' && "boundscheck"[0] == 'b';
  }

  lemma NoEquals(base: string)
    requires IsFlag(base)
    ensures '=' !in base
  {
  }

  /** LDC's option for a check sets the same setting as DMD's. */
  lemma EvalOne(st: Settings, kind: Kind, b: bool)
    ensures Eval(st, LdcOption(kind, b)) == Some(Applied(st, One(kind, Some(b))))
  {
    if kind.Bounds? {
      NameWithValue("boundscheck", if b then "on" else "off");
      assert LdcOption(kind, b) == "boundscheck" + "=" + (if b then "on" else "off");
    } else {
      EvalFlag(st, LdcName(kind), b);
    }
  }

  // ---------------------------------------------------------------- ldmd's side

  /** The LDC options an option of DMD is translated to. */
  function Translated(o: DmdOption): seq<string>
    requires WellFormed(o)
  {
    match o
    case All(on) =>
      ["-" + LdcOption(Bounds, on), "-" + LdcOption(Assert, on), "-" + LdcOption(In, on), "-" + LdcOption(Invariant, on),
       "-" + LdcOption(Out, on), "-" + LdcOption(Switch, on)]
    case One(kind, value) => ["-" + LdcOption(kind, value != Some(false))]
    case BoundsCheck(check) => ["-boundscheck=" + When(check)]
    case NoBoundsCheck => ["-boundscheck=off"]
  }

  lemma TranslatedOne(kind: Kind, value: Option<bool>)
    ensures L.TranslateCheck(KindName(kind) + Suffix(value)) == Some(["-" + LdcOption(kind, value != Some(false))])
  {
    var arg := KindName(kind) + Suffix(value);
    SplitSuffix(kind, value);
    TranslatedKind(kind, value != Some(false), arg);
  }

  /** The code's splitting of the text behind -check= finds the kind and whether it is switched off. */
  lemma SplitSuffix(kind: Kind, value: Option<bool>)
    ensures
      var arg := KindName(kind) + Suffix(value);
      var n := |arg|;
      var on := n > 3 && arg[n - 3..] == "=on";
      var off := !on && n > 4 && arg[n - 4..] == "=off";
      && arg != "on" && arg != "off"
      && off == (value == Some(false))
      && (if on then arg[..n - 3] else if off then arg[..n - 4] else arg) == KindName(kind)
  {
    KindChars(kind);
    SplitName(KindName(kind), value);
  }

  lemma SplitName(name: string, value: Option<bool>)
    requires |name| >= 2 && '=' !in name && name != "on" && name != "off"
    ensures
      var arg := name + Suffix(value);
      var n := |arg|;
      var on := n > 3 && arg[n - 3..] == "=on";
      var off := !on && n > 4 && arg[n - 4..] == "=off";
      && arg != "on" && arg != "off"
      && off == (value == Some(false))
      && (if on then arg[..n - 3] else if off then arg[..n - 4] else arg) == name
  {
    var arg := name + Suffix(value);
    match value
    case None =>
      assert arg == name;
      NoValueEnd(name);
    case Some(true) =>
      assert arg[|name|..] == "=on" && arg[..|name|] == name && |"=on"| == 3;
    case Some(false) =>
      assert arg[|name|..] == "=off" && arg[..|name|] == name && |"=off"| == 4;
      assert arg[|arg| - 3..][0] == 'o';
  }

  lemma KindChars(kind: Kind)
    ensures |KindName(kind)| >= 2 && '=' !in KindName(kind)
    ensures KindName(kind) != "on" && KindName(kind) != "off"
  {
    match kind
    case Assert => assert |"assert"| == 6;
    case Bounds => assert |"bounds"| == 6;
    case In => assert "in"[0] == 'i';
    case Invariant => assert |"invariant"| == 9;
    case Out => assert "out"[1] == 'u';
    case Switch => assert |"switch"| == 6;
  }

  lemma NoValueEnd(name: string)
    requires '=' !in name
    ensures |name| > 3 ==> name[|name| - 3..] != "=on"
    ensures |name| > 4 ==> name[|name| - 4..] != "=off"
  {
    if |name| > 3 { assert name[|name| - 3..][0] == name[|name| - 3] && name[|name| - 3] in name; }
    if |name| > 4 { assert name[|name| - 4..][0] == name[|name| - 4] && name[|name| - 4] in name; }
  }

  lemma TranslatedKind(kind: Kind, b: bool, arg: string)
    requires
      var n := |arg|;
      var on := n > 3 && arg[n - 3..] == "=on";
      var off := !on && n > 4 && arg[n - 4..] == "=off";
      && arg != "on" && arg != "off" && off == !b
      && (if on then arg[..n - 3] else if off then arg[..n - 4] else arg) == KindName(kind)
    ensures L.TranslateCheck(arg) == Some(["-" + LdcOption(kind, b)])
  {
    KindTranslated(kind, b);
  }

  lemma KindTranslated(kind: Kind, b: bool)
    ensures L.TranslateKind(KindName(kind), b) == Some(["-" + LdcOption(kind, b)])
  {
    Dashed(kind, b);
    assert KindName(kind)[0] == match kind
      case Assert => 'a' case Bounds => 'b' case In => 'i' case Invariant => 'i' case Out => 'o' case Switch => 's';
  }

  lemma Dashed(kind: Kind, b: bool)
    ensures "-" + LdcOption(kind, b) ==
      if kind.Bounds? then (if b then "-boundscheck=on" else "-boundscheck=off")
      else (if b then "-enable-" else "-disable-") + LdcName(kind)
  {
    if kind.Bounds? {
      assert "-" + LdcOption(kind, b) == if b then "-boundscheck=on" else "-boundscheck=off";
    } else {
      DashedSwitch(LdcName(kind), b);
    }
  }

  lemma DashedSwitch(base: string, b: bool)
    ensures "-" + SwitchFor(base, b) == (if b then "-enable-" else "-disable-") + base
  {
    assert "-" + "enable-" == "-enable-" && "-" + "disable-" == "-disable-";
  }

  lemma TranslatedAll(on: bool)
    ensures L.TranslateCheck(if on then "on" else "off") == Some(Translated(All(on)))
  {
    Dashed(Bounds, on);
    AssertsDashed(on);
    InDashed(on);
    InvariantDashed(on);
    OutDashed(on);
    SwitchDashed(on);
  }

  // The spelled-out options of -check=on and -check=off.

  lemma AssertsDashed(on: bool)
    ensures "-" + LdcOption(Assert, on) == if on then "-enable-asserts" else "-disable-asserts"
  {
    Dashed(Assert, on);
  }

  lemma InDashed(on: bool)
    ensures "-" + LdcOption(In, on) == if on then "-enable-preconditions" else "-disable-preconditions"
  {
    Dashed(In, on);
  }

  lemma InvariantDashed(on: bool)
    ensures "-" + LdcOption(Invariant, on) == if on then "-enable-invariants" else "-disable-invariants"
  {
    Dashed(Invariant, on);
  }

  lemma OutDashed(on: bool)
    ensures "-" + LdcOption(Out, on) == if on then "-enable-postconditions" else "-disable-postconditions"
  {
    Dashed(Out, on);
  }

  lemma SwitchDashed(on: bool)
    ensures "-" + LdcOption(Switch, on) == if on then "-enable-switch-errors" else "-disable-switch-errors"
  {
    Dashed(Switch, on);
  }

  lemma CheckTranslated(o: DmdOption, pic: bool, beyond: string, longMax: nat)
    requires o.All? || o.One?
    ensures L.TranslateArg(Render(o), pic, beyond, longMax) == L.Emit(Translated(o), pic)
  {
    var arg := if o.All? then (if o.on then "on" else "off") else KindName(o.kind) + Suffix(o.value);
    var p := "-check=" + arg;
    assert Render(o) == p;
    if o.All? { TranslatedAll(o.on); } else { TranslatedOne(o.kind, o.value); }
    CheckTaken(arg, Translated(o), pic, beyond, longMax);
  }

  /** The first group takes every -check option. */
  lemma CheckTaken(arg: string, args: seq<string>, pic: bool, beyond: string, longMax: nat)
    requires L.TranslateCheck(arg) == Some(args)
    ensures L.TranslateArg("-check=" + arg, pic, beyond, longMax) == L.Emit(args, pic)
  {
    var p := "-check=" + arg;
    assert p[1..] == "check=" + arg && p[7..] == arg && p[1..][0] == 'c';
    assert L.TranslateChecks(p, pic) == Some(L.Emit(args, pic));
  }

  /** -boundscheck is passed on as it is. */
  lemma BoundsTranslated(check: Check, pic: bool, beyond: string, longMax: nat)
    requires !check.Default?
    ensures L.TranslateArg(Render(BoundsCheck(check)), pic, beyond, longMax) == L.Emit(Translated(BoundsCheck(check)), pic)
  {
    var p := Render(BoundsCheck(check));
    var q := p[1..];
    assert q == "boundscheck=" + When(check) && q[0] == 'b';
    OtherFirst(p, pic, beyond, longMax);
  }

  /** No group in front of the last takes an option that starts with b. */
  lemma OtherFirst(p: string, pic: bool, beyond: string, longMax: nat)
    requires |p| > 2 && p[0] == '-' && p[1] == 'b'
    ensures L.TranslateArg(p, pic, beyond, longMax) == L.Emit([p], pic)
  {
    EarlyNotB(p, pic);
    LateNotB(p, pic, beyond, longMax);
    LastB(p, pic);
    LastDecides(p, pic, beyond, longMax);
  }

  lemma LastDecides(p: string, pic: bool, beyond: string, longMax: nat)
    requires p != "" && p[0] == '-' && L.EarlyGroups(p, pic).None? && L.LateGroups(p, pic, beyond, longMax).None?
    ensures L.TranslateArg(p, pic, beyond, longMax) == L.TranslateLast(p, pic)
  {
  }

  lemma LastB(p: string, pic: bool)
    requires |p| > 2 && p[0] == '-' && p[1] == 'b'
    ensures L.TranslateLast(p, pic) == L.Emit([p], pic)
  {
    var q := p[1..];
    assert q[0] == p[1];
    assert forall w: string :: w != "" && w <= q ==> w[0] == q[0];
  }

  lemma EarlyNotB(p: string, pic: bool)
    requires |p| > 2 && p[0] == '-' && (p[1] == 'b' || p[1] == 'n')
    ensures L.EarlyGroups(p, pic).None?
  {
    var q := p[1..];
    assert q[0] == p[1];
    assert forall w: string :: w != "" && w <= q ==> w[0] == q[0];
  }

  lemma LateNotB(p: string, pic: bool, beyond: string, longMax: nat)
    requires |p| > 2 && p[0] == '-' && p[1] == 'b'
    ensures L.LateGroups(p, pic, beyond, longMax).None?
  {
    OutputNotB(p, pic, beyond);
    CodegenNotB(p, pic, longMax);
  }

  lemma OutputNotB(p: string, pic: bool, beyond: string)
    requires |p| > 2 && p[0] == '-' && (p[1] == 'b' || p[1] == 'n')
    ensures L.TranslateOutput(p, pic).None? && L.TranslateTarget(p, pic, beyond).None?
  {
    var q := p[1..];
    assert q[0] == p[1];
    assert forall w: string :: w != "" && w <= q ==> w[0] == q[0];
  }

  lemma CodegenNotB(p: string, pic: bool, longMax: nat)
    requires |p| > 2 && p[0] == '-' && p[1] == 'b'
    ensures L.TranslateCodegen(p, pic).None? && L.TranslateLevels(p, pic, longMax).None?
  {
    var q := p[1..];
    assert q[0] == p[1];
    assert forall w: string :: w != "" && w <= q ==> w[0] == q[0];
  }

  lemma NoBoundsTranslated(pic: bool, beyond: string, longMax: nat)
    ensures L.TranslateArg(Render(NoBoundsCheck), pic, beyond, longMax) == L.Emit(Translated(NoBoundsCheck), pic)
  {
    var p := "-noboundscheck";
    EarlyNotB(p, pic);
    OutputNotB(p, pic, beyond);
    assert p[1..] == "noboundscheck";
    NoBoundsTaken(p, pic);
  }

  lemma NoBoundsTaken(p: string, pic: bool)
    requires p != "" && p[0] == '-' && p[1..] == "noboundscheck"
    ensures L.TranslateCodegen(p, pic) == Some(L.Emit(["-boundscheck=off"], pic))
  {
    assert p[1..][2] == 'b';
  }

  // ---------------------------------------------------------------- both sides

  /** Every recognised option, in the place it stands, is translated without ending ldmd. */
  lemma OptionTranslated(o: DmdOption, pic: bool, beyond: string, longMax: nat)
    requires WellFormed(o)
    ensures L.TranslateArg(Render(o), pic, beyond, longMax) == L.Emit(Translated(o), pic)
  {
    match o
    case All(_) => CheckTranslated(o, pic, beyond, longMax);
    case One(_, _) => CheckTranslated(o, pic, beyond, longMax);
    case BoundsCheck(check) => BoundsTranslated(check, pic, beyond, longMax);
    case NoBoundsCheck => NoBoundsTranslated(pic, beyond, longMax);
  }

  lemma EvalStep(st: Settings, option: string, rest: seq<string>)
    requires Eval(st, option).Some?
    ensures EvalAll(st, ["-" + option] + rest) == EvalAll(Eval(st, option).value, rest)
  {
    var options := ["-" + option] + rest;
    assert options[0] == "-" + option && options[1..] == rest && ("-" + option)[1..] == option;
  }

  lemma {:induction false} EvalConcat(st: Settings, a: seq<string>, b: seq<string>)
    requires EvalAll(st, a).Some?
    ensures EvalAll(st, a + b) == EvalAll(EvalAll(st, a).value, b)
    decreases |a|
  {
    if a == [] {
      assert a + b == b;
    } else {
      assert (a + b)[1..] == a[1..] + b;
      EvalConcat(Eval(st, a[0][1..]).value, a[1..], b);
    }
  }

  lemma EvalSingle(st: Settings, option: string)
    requires Eval(st, option).Some?
    ensures EvalAll(st, ["-" + option]) == Eval(st, option)
  {
    EvalStep(st, option, []);
    assert ["-" + option] + [] == ["-" + option];
  }

  /** The options for a list of kinds, and what they set. */
  function EachOption(kinds: seq<Kind>, on: bool): seq<string> {
    if kinds == [] then [] else ["-" + LdcOption(kinds[0], on)] + EachOption(kinds[1..], on)
  }

  function SetEach(st: Settings, kinds: seq<Kind>, on: bool): Settings
    decreases |kinds|
  {
    if kinds == [] then st else SetEach(Applied(st, One(kinds[0], Some(on))), kinds[1..], on)
  }

  lemma {:induction false} EvalEach(st: Settings, kinds: seq<Kind>, on: bool)
    ensures EvalAll(st, EachOption(kinds, on)) == Some(SetEach(st, kinds, on))
    decreases |kinds|
  {
    if kinds != [] {
      EvalOne(st, kinds[0], on);
      EvalEach(Applied(st, One(kinds[0], Some(on))), kinds[1..], on);
      EvalStep(st, LdcOption(kinds[0], on), EachOption(kinds[1..], on));
    }
  }

  const KINDS: seq<Kind> := [Bounds, Assert, In, Invariant, Out, Switch]

  /** -check=on and -check=off set all kinds. */
  lemma EvalKinds(st: Settings, on: bool)
    ensures EvalAll(st, Translated(All(on))) == Some(Applied(st, All(on)))
  {
    EvalEach(st, KINDS, on);
    KindsListed(on);
    KindsSet(st, on);
  }

  lemma KindsListed(on: bool)
    ensures EachOption(KINDS, on) == Translated(All(on))
  {
    EachStep(KINDS, on);
    assert KINDS[1..] == [Assert, In, Invariant, Out, Switch];
    EachStep([Assert, In, Invariant, Out, Switch], on);
    assert [Assert, In, Invariant, Out, Switch][1..] == [In, Invariant, Out, Switch];
    EachStep([In, Invariant, Out, Switch], on);
    assert [In, Invariant, Out, Switch][1..] == [Invariant, Out, Switch];
    EachStep([Invariant, Out, Switch], on);
    assert [Invariant, Out, Switch][1..] == [Out, Switch];
    EachStep([Out, Switch], on);
    assert [Out, Switch][1..] == [Switch];
    EachStep([Switch], on);
  }

  lemma EachStep(kinds: seq<Kind>, on: bool)
    requires kinds != []
    ensures EachOption(kinds, on) == ["-" + LdcOption(kinds[0], on)] + EachOption(kinds[1..], on)
  {
  }

  lemma KindsSet(st: Settings, on: bool)
    ensures SetEach(st, KINDS, on) == Applied(st, All(on))
  {
    assert KINDS[1..] == [Assert, In, Invariant, Out, Switch];
    assert KINDS[1..][1..] == [In, Invariant, Out, Switch];
    assert KINDS[1..][1..][1..] == [Invariant, Out, Switch];
    assert KINDS[1..][1..][1..][1..] == [Out, Switch];
    assert KINDS[1..][1..][1..][1..][1..] == [Switch];
  }

  lemma BoundsValue(st: Settings, check: Check)
    requires !check.Default?
    ensures EvalAll(st, ["-boundscheck=" + When(check)]) == Some(st.(bounds := check))
  {
    var option := "boundscheck" + "=" + When(check);
    EvalBounds(st, check);
    EvalSingle(st, option);
    assert "-" + option == "-boundscheck=" + When(check);
  }

  lemma EvalBounds(st: Settings, check: Check)
    requires !check.Default?
    ensures Eval(st, "boundscheck" + "=" + When(check)) == Some(st.(bounds := check))
  {
    NameWithValue("boundscheck", When(check));
  }

  /** The translation of an option sets what the option does. */
  lemma OptionPreserved(st: Settings, o: DmdOption)
    requires WellFormed(o)
    ensures EvalAll(st, Translated(o)) == Some(Applied(st, o))
  {
    match o
    case All(on) => EvalKinds(st, on);
    case One(kind, value) =>
      EvalOne(st, kind, value != Some(false));
      EvalSingle(st, LdcOption(kind, value != Some(false)));
    case BoundsCheck(check) => BoundsValue(st, check);
    case NoBoundsCheck =>
      BoundsValue(st, Off);
      assert "-boundscheck=" + When(Off) == "-boundscheck=off";
  }

  function RenderAll(options: seq<DmdOption>): seq<string>
    requires forall o <- options :: WellFormed(o)
  {
    seq(|options|, i requires 0 <= i < |options| => assert options[i] in options; Render(options[i]))
  }

  /** For every sequence of recognised options, ldmd's translation evaluated by LDC leaves the six settings as the
      options themselves, applied from left to right, would if DMD kept the bounds options in one setting. */
  lemma {:induction false} AppliedInOrder(env: L.Env, st: Settings, options: seq<DmdOption>, i: nat, pic: bool)
    requires i <= |options| && forall o <- options :: WellFormed(o)
    ensures
      var t := L.TranslateFrom(L.TranslatorFor(env), RenderAll(options), i, pic);
      t.Some? && EvalAll(st, t.value) == Some(AppliedAll(st, options[i..]))
    decreases |options| - i
  {
    if i < |options| {
      var o := options[i];
      assert o in options;
      OptionTranslated(o, pic, env.beyond(i), env.longMax);
      OptionPreserved(st, o);
      AppliedInOrder(env, Applied(st, o), options, i + 1, pic);
      var rest := L.TranslateFrom(L.TranslatorFor(env), RenderAll(options), i + 1, pic).value;
      EvalConcat(st, Translated(o), rest);
      assert options[i..][1..] == options[i + 1..];
    }
  }
}
