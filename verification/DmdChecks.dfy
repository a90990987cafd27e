/** What DMD makes of its check options (dmd/mars.d, dmd/main.d), and when ldmd's translation preserves it. DMD keeps
    -boundscheck apart: it only counts if no -check option sets the bounds checks. */
module DmdChecks {

  import L = Ldmd
  import opened CheckFlags
  import opened CheckTranslation
  import opened Common

  /** DMD's parameters: the six settings, and the separate one for -boundscheck. */
  datatype Params = Params(st: Settings, boundscheck: Check)

  // ---------------------------------------------------------------- DMD's parser

  /** The value of -check for a kind: its name alone, or with =on or =off. */
  function Legal(checkarg: string, name: string): Option<Check> {
    if name <= checkarg then
      var rest := checkarg[|name|..];
      if rest == "" || rest == "=on" then Some(On) else if rest == "=off" then Some(Off) else None
    else None
  }

  function SetKind(st: Settings, kind: Kind, c: Check): Settings {
    match kind
    case Assert => st.(asserts := c)
    case Bounds => st.(bounds := c)
    case In => st.(useIn := c)
    case Invariant => st.(invariants := c)
    case Out => st.(useOut := c)
    case Switch => st.(switches := c)
  }

  /** The kinds are tried in this order. */
  const ORDER: seq<Kind> := [Assert, Bounds, In, Invariant, Out, Switch]

  function TryKinds(st: Settings, checkarg: string, kinds: seq<Kind>): Option<Settings> {
    if kinds == [] then None
    else match Legal(checkarg, KindName(kinds[0]))
      case Some(c) => Some(SetKind(st, kinds[0], c))
      case None => TryKinds(st, checkarg, kinds[1..])
  }

  function ParseCheck(st: Settings, checkarg: string): Option<Settings> {
    if checkarg == "on" then Some(Settings(On, On, On, On, On, On))
    else if checkarg == "off" then Some(Settings(Off, Off, Off, Off, Off, Off))
    else TryKinds(st, checkarg, ORDER)
  }

  function ParseWhen(value: string): Option<Check> {
    if value == "on" then Some(On)
    else if value == "safeonly" then Some(SafeOnly)
    else if value == "off" then Some(Off)
    else None
  }

  /** One check option; None for an error or another option. */
  function Parse(d: Params, arg: string): Option<Params> {
    if "-check=" <= arg then
      match ParseCheck(d.st, arg[7..])
      case Some(st) => Some(d.(st := st))
      case None => None
    else if arg == "-noboundscheck" then Some(d.(boundscheck := Off))
    else if "-boundscheck=" <= arg then
      match ParseWhen(arg[13..])
      case Some(c) => Some(d.(boundscheck := c))
      case None => None
    else None
  }

  function ParseAll(d: Params, args: seq<string>): Option<Params>
    decreases |args|
  {
    if args == [] then Some(d)
    else match Parse(d, args[0])
      case None => None
      case Some(d') => ParseAll(d', args[1..])
  }

  /** Once all options are parsed, -boundscheck decides if nothing else did. */
  function Resolved(d: Params): Settings {
    if d.boundscheck != Default && d.st.bounds == Default then d.st.(bounds := d.boundscheck) else d.st
  }

  const START := Params(Settings(Default, Default, Default, Default, Default, Default), Default)

  // ---------------------------------------------------------------- what the options mean to DMD

  function Meaning(d: Params, o: DmdOption): Params {
    match o
    case All(on) => d.(st := Applied(d.st, o))
    case One(kind, value) => d.(st := SetKind(d.st, kind, FromBool(value != Some(false))))
    case BoundsCheck(check) => d.(boundscheck := check)
    case NoBoundsCheck => d.(boundscheck := Off)
  }

  /** The options, the last one being applied last. */
  function MeaningOfAll(d: Params, options: seq<DmdOption>): Params {
    if options == [] then d
    else Meaning(MeaningOfAll(d, options[..|options| - 1]), options[|options| - 1])
  }

  lemma LegalOwn(kind: Kind, value: Option<bool>)
    ensures Legal(KindName(kind) + Suffix(value), KindName(kind)) == Some(FromBool(value != Some(false)))
  {
    var name, arg := KindName(kind), KindName(kind) + Suffix(value);
    assert arg[|name|..] == Suffix(value) && arg[..|name|] == name;
    assert "=on"[1] == 'o' && |"=on"| == 3 && |"=off"| == 4;
  }

  /** A kind's name is not taken for another's. */
  lemma LegalOther(kind: Kind, value: Option<bool>, other: Kind)
    requires other != kind
    ensures Legal(KindName(kind) + Suffix(value), KindName(other)) == None
  {
    var arg := KindName(kind) + Suffix(value);
    if kind.Invariant? && other.In? {
      assert arg[2..][0] == 'v';
    } else if kind.In? && other.Invariant? {
      assert value.Some? ==> arg[2] == '=';
      assert "invariant"[2] == 'v';
    } else {
      FirstLetters(kind, other);
      assert arg[0] == KindName(kind)[0];
    }
  }

  lemma FirstLetters(kind: Kind, other: Kind)
    requires other != kind && !(kind.In? && other.Invariant?) && !(kind.Invariant? && other.In?)
    ensures KindName(kind)[0] != KindName(other)[0]
  {
  }

  lemma {:induction false} TriesKind(st: Settings, kind: Kind, value: Option<bool>, kinds: seq<Kind>)
    requires kind in kinds
    ensures TryKinds(st, KindName(kind) + Suffix(value), kinds) ==
      Some(SetKind(st, kind, FromBool(value != Some(false))))
    decreases |kinds|
  {
    if kinds[0] == kind {
      LegalOwn(kind, value);
    } else {
      LegalOther(kind, value, kinds[0]);
      TriesKind(st, kind, value, kinds[1..]);
    }
  }

  lemma KindListed(kind: Kind)
    ensures kind in ORDER
  {
    match kind
    case Assert => assert ORDER[0] == kind;
    case Bounds => assert ORDER[1] == kind;
    case In => assert ORDER[2] == kind;
    case Invariant => assert ORDER[3] == kind;
    case Out => assert ORDER[4] == kind;
    case Switch => assert ORDER[5] == kind;
  }

  /** DMD's parser makes of each option what it means. */
  lemma ParsedMeans(d: Params, o: DmdOption)
    requires WellFormed(o)
    ensures Parse(d, Render(o)) == Some(Meaning(d, o))
  {
    match o
    case All(on) =>
      assert Render(o)[7..] == if on then "on" else "off";
    case One(kind, value) =>
      var arg := KindName(kind) + Suffix(value);
      assert Render(o)[7..] == arg;
      SplitSuffix(kind, value);
      KindListed(kind);
      TriesKind(d.st, kind, value, ORDER);
    case BoundsCheck(check) =>
      var arg := Render(o);
      assert arg[13..] == When(check) && arg[1] == 'b' && "-check="[1] == 'c';
    case NoBoundsCheck =>
      assert Render(o)[1] == 'n' && "-check="[1] == 'c';
  }

  lemma {:induction false} ParseLast(d: Params, args: seq<string>, arg: string)
    requires ParseAll(d, args).Some?
    ensures ParseAll(d, args + [arg]) == Parse(ParseAll(d, args).value, arg)
    decreases |args|
  {
    if args == [] {
      assert args + [arg] == [arg];
      assert ParseAll(d, [arg]) == match Parse(d, arg) case None => None case Some(d') => ParseAll(d', []);
    } else {
      assert (args + [arg])[1..] == args[1..] + [arg];
      ParseLast(Parse(d, args[0]).value, args[1..], arg);
    }
  }

  lemma {:induction false} RenderedLast(options: seq<DmdOption>)
    requires options != [] && forall o <- options :: WellFormed(o)
    ensures (forall o <- options[..|options| - 1] :: WellFormed(o)) && WellFormed(options[|options| - 1])
    ensures RenderAll(options) == RenderAll(options[..|options| - 1]) + [Render(options[|options| - 1])]
  {
    var front := options[..|options| - 1];
    assert options[|options| - 1] in options && forall o <- front :: o in options;
  }

  /** DMD's parameters after all options are what they mean, applied in order. */
  lemma {:induction false} ParsedAllMeans(d: Params, options: seq<DmdOption>)
    requires forall o <- options :: WellFormed(o)
    ensures ParseAll(d, RenderAll(options)) == Some(MeaningOfAll(d, options))
    decreases |options|
  {
    if options != [] {
      var front, last := options[..|options| - 1], options[|options| - 1];
      assert last in options && forall o <- front :: o in options;
      ParsedAllMeans(d, front);
      RenderedLast(options);
      ParseLast(d, RenderAll(front), Render(last));
      ParsedMeans(MeaningOfAll(d, front), last);
    }
  }

  // ---------------------------------------------------------------- when LDC agrees

  /** The bounds checks a -check option sets. */
  function CheckValue(o: DmdOption): Option<Check> {
    match o
    case All(on) => Some(FromBool(on))
    case One(kind, value) => if kind.Bounds? then Some(FromBool(value != Some(false))) else None
    case _ => None
  }

  /** The bounds checks -boundscheck or -noboundscheck sets. */
  function FlagValue(o: DmdOption): Option<Check> {
    match o
    case BoundsCheck(check) => Some(check)
    case NoBoundsCheck => Some(Off)
    case _ => None
  }

  /** The value of the last -check option for bounds. */
  function LastCheck(options: seq<DmdOption>): Option<Check> {
    if options == [] then None
    else
      var v := CheckValue(options[|options| - 1]);
      if v.Some? then v else LastCheck(options[..|options| - 1])
  }

  function LastFlag(options: seq<DmdOption>): Option<Check> {
    if options == [] then None
    else
      var v := FlagValue(options[|options| - 1]);
      if v.Some? then v else LastFlag(options[..|options| - 1])
  }

  /** The last option about bounds is a -boundscheck or -noboundscheck. */
  predicate FlagIsLast(options: seq<DmdOption>) {
    options != [] &&
    var o := options[|options| - 1];
    FlagValue(o).Some? || (CheckValue(o).None? && FlagIsLast(options[..|options| - 1]))
  }

  /** A -boundscheck behind the last -check option for bounds asks for something else. */
  predicate Conflicts(options: seq<DmdOption>) {
    FlagIsLast(options) && LastCheck(options).Some? && LastCheck(options) != LastFlag(options)
  }

  function OrDefault(v: Option<Check>): Check {
    match v case Some(c) => c case None => Default
  }

  lemma {:induction false} DmdBounds(options: seq<DmdOption>)
    ensures
      var d := MeaningOfAll(START, options);
      d.st.bounds == OrDefault(LastCheck(options)) && d.boundscheck == OrDefault(LastFlag(options))
    decreases |options|
  {
    if options != [] {
      DmdBounds(options[..|options| - 1]);
    }
  }

  lemma {:induction false} AppliedLast(st: Settings, options: seq<DmdOption>, o: DmdOption)
    ensures AppliedAll(st, options + [o]) == Applied(AppliedAll(st, options), o)
    decreases |options|
  {
    if options == [] {
      assert options + [o] == [o];
      assert AppliedAll(st, [o]) == AppliedAll(Applied(st, o), []);
    } else {
      assert (options + [o])[1..] == options[1..] + [o];
      AppliedLast(Applied(st, options[0]), options[1..], o);
    }
  }

  /** LDC keeps the last of both, and agrees with DMD on everything else. */
  lemma {:induction false} LdcBounds(options: seq<DmdOption>)
    ensures
      var st, d := AppliedAll(START.st, options), MeaningOfAll(START, options);
      && st == d.st.(bounds := st.bounds)
      && st.bounds == OrDefault(if FlagIsLast(options) then LastFlag(options) else LastCheck(options))
    decreases |options|
  {
    if options != [] {
      var front, last := options[..|options| - 1], options[|options| - 1];
      LdcBounds(front);
      AppliedLast(START.st, front, last);
      assert options == front + [last];
    }
  }

  lemma {:induction false} FlagLastExists(options: seq<DmdOption>)
    requires forall o <- options :: WellFormed(o)
    ensures FlagIsLast(options) ==> LastFlag(options).Some?
    ensures LastFlag(options).Some? && LastCheck(options).None? ==> FlagIsLast(options)
    ensures LastCheck(options) != Some(Default) && LastFlag(options) != Some(Default)
    decreases |options|
  {
    if options != [] {
      assert options[|options| - 1] in options;
      FlagLastExists(options[..|options| - 1]);
    }
  }

  /** For every sequence of recognised check options: what ldmd makes of it leaves LDC with the settings DMD itself ends
      up with if and only if no -boundscheck behind the last -check option for bounds asks for something else. */
  lemma PreservedExactly(env: L.Env, options: seq<DmdOption>)
    requires forall o <- options :: WellFormed(o)
    ensures
      var dmd := ParseAll(START, RenderAll(options));
      var t := L.TranslateFrom(L.TranslatorFor(env), RenderAll(options), 0, false);
      && dmd.Some? && t.Some? && EvalAll(START.st, t.value).Some?
      && (EvalAll(START.st, t.value).value == Resolved(dmd.value) <==> !Conflicts(options))
  {
    ParsedAllMeans(START, options);
    AppliedInOrder(env, START.st, options, 0, false);
    assert options[0..] == options;
    DmdBounds(options);
    LdcBounds(options);
    FlagLastExists(options);
  }

  /** All settings but the one for bounds are always preserved. */
  lemma OthersPreserved(env: L.Env, options: seq<DmdOption>)
    requires forall o <- options :: WellFormed(o)
    ensures
      var t := L.TranslateFrom(L.TranslatorFor(env), RenderAll(options), 0, false);
      && t.Some? && EvalAll(START.st, t.value).Some?
      && var st := EvalAll(START.st, t.value).value;
         st == Resolved(MeaningOfAll(START, options)).(bounds := st.bounds)
  {
    AppliedInOrder(env, START.st, options, 0, false);
    assert options[0..] == options;
    LdcBounds(options);
  }

  /** `-check=bounds=on -boundscheck=off`: DMD checks bounds, LDC does not. */
  lemma CheckThenBoundsCheck(env: L.Env)
    ensures
      var options := [One(Bounds, Some(true)), BoundsCheck(Off)];
      var t := L.TranslateFrom(L.TranslatorFor(env), RenderAll(options), 0, false);
      && Resolved(MeaningOfAll(START, options)).bounds == On
      && t.Some? && EvalAll(START.st, t.value).Some? && EvalAll(START.st, t.value).value.bounds == Off
  {
    var options := [One(Bounds, Some(true)), BoundsCheck(Off)];
    AppliedInOrder(env, START.st, options, 0, false);
    assert options[0..] == options && options[..1] == [options[0]] && options[..1][..0] == [];
    assert LastCheck(options[..1]) == Some(On) && LastFlag(options) == Some(Off);
    DmdBounds(options);
    LdcBounds(options);
  }
}
