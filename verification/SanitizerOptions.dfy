/** -fsanitize-coverage, and how the three sanitizer options together determine the settings
    (driver/cl_options_sanitizers.cpp). */
module SanitizerOptions {

  import opened Common
  import opened Sanitizers

  // ---------------------------------------------------------------- coverage options

  datatype CoverageType = NoCoverage | Function | BB | Edge {

    function Rank(): nat {
      match this
      case NoCoverage => 0
      case Function => 1
      case BB => 2
      case Edge => 3
    }
  }

  /** The boolean members of LLVM's SanitizerCoverageOptions that can be set. */
  datatype Flag =
    | IndirectCalls | TraceBB | TraceCmp | TraceDiv | TraceGep | TraceLoads | TraceStores | Use8bitCounters | TracePC
    | TracePCGuard | Inline8bitCounters | NoPrune | PCTable

  /** The coverage type, and the boolean members that are true. */
  datatype CoverageOptions = CoverageOptions(coverageType: CoverageType, flags: set<Flag>)

  function Max(a: CoverageType, b: CoverageType): CoverageType {
    if a.Rank() < b.Rank() then b else a
  }

  /** The coverage type a name stands for. */
  function TypesOf(name: string): set<CoverageType> {
    if name == "func" then {Function}
    else if name == "bb" then {BB}
    else if name == "edge" then {Edge}
    else {}
  }

  function FlagSpelling(f: Flag): string {
    match f
    case IndirectCalls => "indirect-calls"
    case TraceBB => "trace-bb"
    case TraceCmp => "trace-cmp"
    case TraceDiv => "trace-div"
    case TraceGep => "trace-gep"
    case TraceLoads => "trace-loads"
    case TraceStores => "trace-stores"
    case Use8bitCounters => "8bit-counters"
    case TracePC => "trace-pc"
    case TracePCGuard => "trace-pc-guard"
    case Inline8bitCounters => "inline-8bit-counters"
    case NoPrune => "no-prune"
    case PCTable => "pc-table"
  }

  /** The boolean member a name stands for. */
  function FlagOf(name: string): Option<Flag> {
    if name == "indirect-calls" then Some(IndirectCalls)
    else if name == "trace-bb" then Some(TraceBB)
    else if name == "trace-cmp" then Some(TraceCmp)
    else if name == "trace-div" then Some(TraceDiv)
    else if name == "trace-gep" then Some(TraceGep)
    else if name == "trace-loads" then Some(TraceLoads)
    else if name == "trace-stores" then Some(TraceStores)
    else LaterFlagOf(name)
  }

  function LaterFlagOf(name: string): Option<Flag> {
    if name == "8bit-counters" then Some(Use8bitCounters)
    else if name == "trace-pc" then Some(TracePC)
    else if name == "trace-pc-guard" then Some(TracePCGuard)
    else if name == "inline-8bit-counters" then Some(Inline8bitCounters)
    else if name == "no-prune" then Some(NoPrune)
    else if name == "pc-table" then Some(PCTable)
    else None
  }

  function FlagsOf(name: string): set<Flag> {
    match FlagOf(name)
    case Some(f) => {f}
    case None => {}
  }

  function CoverageError(name: string): seq<Error> {
    if TypesOf(name) == {} && FlagsOf(name) == {} then [UnrecognizedCoverage(name)] else []
  }

  lemma Spelled(f: Flag)
    ensures FlagOf(FlagSpelling(f)) == Some(f)
  {
    match f
    case IndirectCalls =>
    case TraceBB =>
    case TraceCmp =>
    case TraceDiv => assert "trace-div"[6] == 'd';
    case TraceGep => assert "trace-gep"[6] == 'g';
    case TraceLoads =>
    case TraceStores =>
    case Use8bitCounters =>
    case TracePC => assert "trace-pc"[6] == 'p';
    case TracePCGuard => assert "trace-pc-guard"[0] == 't';
    case Inline8bitCounters =>
    case NoPrune => assert "no-prune"[0] == 'n';
    case PCTable => assert "pc-table"[0] == 'p';
  }

  lemma SpelledBy(name: string, f: Flag)
    requires FlagOf(name) == Some(f)
    ensures name == FlagSpelling(f)
  {
    if LaterFlagOf(name) == Some(f) {
      LaterSpelledBy(name, f);
    }
  }

  lemma LaterSpelledBy(name: string, f: Flag)
    requires LaterFlagOf(name) == Some(f)
    ensures name == FlagSpelling(f)
  {
  }

  /** Each name sets the member it spells, and nothing else does. */
  lemma FlagExactly(name: string, f: Flag)
    ensures f in FlagsOf(name) <==> name == FlagSpelling(f)
  {
    if f in FlagsOf(name) {
      SpelledBy(name, f);
    }
    if name == FlagSpelling(f) {
      Spelled(f);
    }
  }

  /** The highest type among `least` and those of a set. */
  function Highest(least: CoverageType, types: set<CoverageType>): CoverageType {
    if Edge in types then Edge
    else if BB in types then Max(least, BB)
    else if Function in types then Max(least, Function)
    else least
  }

  lemma HighestUnion(least: CoverageType, a: set<CoverageType>, b: set<CoverageType>)
    ensures Highest(least, a + b) == Highest(Highest(least, a), b)
  {
  }

  /** It is an upper bound, and one of them. */
  lemma HighestExactly(least: CoverageType, types: set<CoverageType>)
    ensures Highest(least, types) in types + {least}
    ensures forall t <- types + {least} :: t.Rank() <= Highest(least, types).Rank()
  {
  }

  /** The options after one name. */
  function WithName(opts: CoverageOptions, name: string): CoverageOptions {
    CoverageOptions(Highest(opts.coverageType, TypesOf(name)), opts.flags + FlagsOf(name))
  }

  method ParseCoverage(name: string, opts: CoverageOptions, log: Diagnostics) returns (r: CoverageOptions)
    modifies log
    ensures r == WithName(opts, name)
    ensures log.errors == old(log.errors) + CoverageError(name)
  {
    r := opts;
    if name == "func" {
      r := r.(coverageType := Max(r.coverageType, Function));
    } else if name == "bb" {
      r := r.(coverageType := Max(r.coverageType, BB));
    } else if name == "edge" {
      r := r.(coverageType := Max(r.coverageType, Edge));
    } else if name == "indirect-calls" {
      r := r.(flags := r.flags + {IndirectCalls});
    } else if name == "trace-bb" {
      r := r.(flags := r.flags + {TraceBB});
    } else if name == "trace-cmp" {
      r := r.(flags := r.flags + {TraceCmp});
    } else if name == "trace-div" {
      r := r.(flags := r.flags + {TraceDiv});
    } else if name == "trace-gep" {
      r := r.(flags := r.flags + {TraceGep});
    } else if name == "trace-loads" {
      r := r.(flags := r.flags + {TraceLoads});
    } else if name == "trace-stores" {
      r := r.(flags := r.flags + {TraceStores});
    } else if name == "8bit-counters" {
      r := r.(flags := r.flags + {Use8bitCounters});
    } else if name == "trace-pc" {
      r := r.(flags := r.flags + {TracePC});
    } else if name == "trace-pc-guard" {
      r := r.(flags := r.flags + {TracePCGuard});
    } else if name == "inline-8bit-counters" {
      r := r.(flags := r.flags + {Inline8bitCounters});
    } else if name == "no-prune" {
      r := r.(flags := r.flags + {NoPrune});
    } else if name == "pc-table" {
      r := r.(flags := r.flags + {PCTable});
    } else {
      log.Report(UnrecognizedCoverage(name));
    }
  }

  // ---------------------------------------------------------------- the settings

  datatype Settings = Settings(enabled: SanitizerBits, recoveries: SanitizerBits, coverage: CoverageOptions)

  const INITIAL := Settings({}, {}, CoverageOptions(NoCoverage, {}))
  const FUZZER_FLAGS := {Inline8bitCounters, PCTable, IndirectCalls, TraceCmp}
  const EDGE_FLAGS := {TracePC, TracePCGuard, Inline8bitCounters}

  /** The coverage options after a list of names. */
  function Collected(opts: CoverageOptions, list: seq<string>): CoverageOptions {
    CoverageOptions(Highest(opts.coverageType, Or(TypesOf, list)), opts.flags + Or(FlagsOf, list))
  }

  /** Without a type, pc tracing and inline counters imply Edge. */
  function WithImplied(opts: CoverageOptions): CoverageOptions {
    if opts.coverageType == NoCoverage && opts.flags * EDGE_FLAGS != {} then opts.(coverageType := Edge) else opts
  }

  /** The settings that result from `s`, in terms of the collected bits, members and types. */
  function Settle(s: Settings, fSanitize: seq<string>, fRecover: seq<string>, fCoverage: seq<string>): Settings {
    var named := s.enabled + Or(ParseName, fSanitize);
    var fuzz := BitOf(Fuzzer) in named;
    var opts := if fuzz then s.coverage.(flags := s.coverage.flags + FUZZER_FLAGS) else s.coverage;
    Settings(
      named + (if fuzz || fCoverage != [] then {COVERAGE} else {}),
      s.recoveries + Or(RecoveryBits, fRecover),
      WithImplied(Collected(opts, fCoverage)))
  }

  class Globals {
    var enabledSanitizers: SanitizerBits
    var enabledSanitizerRecoveries: SanitizerBits
    var sanitizerCoverageOptions: CoverageOptions

    constructor ()
      ensures Current() == INITIAL
    {
      enabledSanitizers, enabledSanitizerRecoveries := {}, {};
      sanitizerCoverageOptions := CoverageOptions(NoCoverage, {});
    }

    function Current(): Settings
      reads this
    {
      Settings(enabledSanitizers, enabledSanitizerRecoveries, sanitizerCoverageOptions)
    }

    method ParseCoverageParameters(fSanitizeCoverage: seq<string>, opts: CoverageOptions, log: Diagnostics)
        returns (r: CoverageOptions)
      modifies this`enabledSanitizers, log
      ensures enabledSanitizers == old(enabledSanitizers) + (if fSanitizeCoverage == [] then {} else {COVERAGE})
      ensures r == Collected(opts, fSanitizeCoverage)
      ensures log.errors == old(log.errors) + Errors(CoverageError, fSanitizeCoverage)
    {
      r := opts;
      ghost var collected := Collected(opts, fSanitizeCoverage);
      ghost var all := log.errors + Errors(CoverageError, fSanitizeCoverage);
      for i := 0 to |fSanitizeCoverage|
        invariant enabledSanitizers == old(enabledSanitizers) + (if i == 0 then {} else {COVERAGE})
        invariant Remaining(fSanitizeCoverage, i, collected, all, r, log.errors)
      {
        var name := fSanitizeCoverage[i];
        NextName(fSanitizeCoverage, i, collected, all, r, log.errors);
        enabledSanitizers := enabledSanitizers + {COVERAGE};
        r := ParseCoverage(name, r, log);
      }
    }

    /** `initializeSanitizerOptionsFromCmdline`, without loading the blacklist. */
    method Initialize(fSanitize: seq<string>, fSanitizeRecover: seq<string>, fSanitizeCoverage: seq<string>,
                      log: Diagnostics)
      modifies this, log
      ensures Current() == Settle(old(Current()), fSanitize, fSanitizeRecover, fSanitizeCoverage)
      ensures log.errors == old(log.errors) + Errors(SanitizeError, fSanitize) + Errors(RecoverError, fSanitizeRecover) +
                            Errors(CoverageError, fSanitizeCoverage)
    {
      var bits := ParseSanitize(fSanitize, log);
      enabledSanitizers := enabledSanitizers + bits;
      bits := ParseRecover(fSanitizeRecover, log);
      enabledSanitizerRecoveries := enabledSanitizerRecoveries + bits;
      if BitOf(Fuzzer) in enabledSanitizers {
        enabledSanitizers := enabledSanitizers + {COVERAGE};
        sanitizerCoverageOptions := sanitizerCoverageOptions.(flags := sanitizerCoverageOptions.flags + FUZZER_FLAGS);
      }
      sanitizerCoverageOptions := ParseCoverageParameters(fSanitizeCoverage, sanitizerCoverageOptions, log);
      if sanitizerCoverageOptions.coverageType == NoCoverage && sanitizerCoverageOptions.flags * EDGE_FLAGS != {} {
        sanitizerCoverageOptions := sanitizerCoverageOptions.(coverageType := Edge);
      }
    }
  }

  /** What is collected and reported in the end, from name i on. */
  ghost predicate Remaining(list: seq<string>, i: nat, collected: CoverageOptions, all: seq<Error>, opts: CoverageOptions,
                            errors: seq<Error>) {
    i <= |list| && collected == Collected(opts, list[i..]) && all == errors + Errors(CoverageError, list[i..])
  }

  lemma NextName(list: seq<string>, i: nat, collected: CoverageOptions, all: seq<Error>, opts: CoverageOptions,
                 errors: seq<Error>)
    requires i < |list| && Remaining(list, i, collected, all, opts, errors)
    ensures Remaining(list, i + 1, collected, all, WithName(opts, list[i]), errors + CoverageError(list[i]))
  {
    assert list[i..][1..] == list[i + 1..];
    HighestUnion(opts.coverageType, TypesOf(list[i]), Or(TypesOf, list[i + 1..]));
    NextErrors(CoverageError, list, i, errors);
  }

  // ---------------------------------------------------------------- properties of the settings

  /** The settings depend only on which names are given, not on their order or repetition. */
  lemma SettingsOrderIndependent(s: Settings, san: seq<string>, san': seq<string>, rec: seq<string>,
                                 rec': seq<string>, cov: seq<string>, cov': seq<string>)
    requires SameNames(san, san') && SameNames(rec, rec') && SameNames(cov, cov')
    ensures Settle(s, san, rec, cov) == Settle(s, san', rec', cov')
  {
    OrderIndependent(ParseName, san, san');
    OrderIndependent(RecoveryBits, rec, rec');
    OrderIndependent(FlagsOf, cov, cov');
    OrderIndependent(TypesOf, cov, cov');
    if cov != [] { assert cov[0] in cov; }
    if cov' != [] { assert cov'[0] in cov'; }
  }

  ghost predicate NamesType(cov: seq<string>) {
    "func" in cov || "bb" in cov || "edge" in cov
  }

  ghost predicate ImpliesEdge(san: seq<string>, cov: seq<string>) {
    "fuzzer" in san || "trace-pc" in cov || "trace-pc-guard" in cov || "inline-8bit-counters" in cov
  }

  /** Starting from nothing, the coverage type is the highest named one; if none is named it is Edge exactly if pc
      tracing or the inline counters are on, by name or through the fuzzer. */
  lemma TypeExactly(san: seq<string>, rec: seq<string>, cov: seq<string>)
    ensures Settle(INITIAL, san, rec, cov).coverage.coverageType ==
      if "edge" in cov then Edge
      else if "bb" in cov then BB
      else if "func" in cov then Function
      else if ImpliesEdge(san, cov) then Edge
      else NoCoverage
  {
    TypesGiven(cov);
    EdgeImplied(san, rec, cov);
  }

  lemma TypesGiven(cov: seq<string>)
    ensures Edge in Or(TypesOf, cov) <==> "edge" in cov
    ensures BB in Or(TypesOf, cov) <==> "bb" in cov
    ensures Function in Or(TypesOf, cov) <==> "func" in cov
  {
    OrExactly(TypesOf, cov, Edge);
    OrExactly(TypesOf, cov, BB);
    OrExactly(TypesOf, cov, Function);
  }

  lemma EdgeImplied(san: seq<string>, rec: seq<string>, cov: seq<string>)
    ensures Settle(INITIAL, san, rec, cov).coverage.flags * EDGE_FLAGS != {} <==> ImpliesEdge(san, cov)
  {
    var flags := Settle(INITIAL, san, rec, cov).coverage.flags;
    FlagGiven(san, rec, cov, TracePC);
    FlagGiven(san, rec, cov, TracePCGuard);
    FlagGiven(san, rec, cov, Inline8bitCounters);
    Meets(flags);
  }

  lemma Meets(flags: set<Flag>)
    ensures flags * EDGE_FLAGS != {} <==> TracePC in flags || TracePCGuard in flags || Inline8bitCounters in flags
  {
    forall f: Flag ensures f in flags * EDGE_FLAGS <==> f in flags && (f.TracePC? || f.TracePCGuard? || f.Inline8bitCounters?) {}
  }

  /** A member is on exactly if it is named or the fuzzer implies it. */
  lemma FlagGiven(san: seq<string>, rec: seq<string>, cov: seq<string>, f: Flag)
    ensures f in Settle(INITIAL, san, rec, cov).coverage.flags <==>
      FlagSpelling(f) in cov || ("fuzzer" in san && f in FUZZER_FLAGS)
  {
    EnabledExactly(san, Fuzzer);
    OrExactly(FlagsOf, cov, f);
    forall n ensures f in FlagsOf(n) <==> n == FlagSpelling(f) {
      FlagExactly(n, f);
    }
  }

  /** More names never clear a bit or a member, but they can lower the coverage type: exactly when the type was
      implied before, and the added names select a lower one. */
  lemma MonotoneExactly(san: seq<string>, san': seq<string>, rec: seq<string>, cov: seq<string>, cov': seq<string>)
    requires (forall n <- san :: n in san') && (forall n <- cov :: n in cov')
    ensures
      var s, s' := Settle(INITIAL, san, rec, cov), Settle(INITIAL, san', rec, cov');
      s.enabled <= s'.enabled && s.coverage.flags <= s'.coverage.flags &&
      (s'.coverage.coverageType.Rank() < s.coverage.coverageType.Rank() <==>
         !NamesType(cov) && ImpliesEdge(san, cov) && NamesType(cov') && "edge" !in cov')
  {
    Included(ParseName, san, san');
    Included(FlagsOf, cov, cov');
    TypeExactly(san, rec, cov);
    TypeExactly(san', rec, cov');
    if cov != [] { assert cov[0] in cov'; }
  }

  /** `-fsanitize=fuzzer` implies Edge; with `-fsanitize-coverage=func` in addition, the type is only Function. */
  lemma MoreNamesLess()
    ensures Settle(INITIAL, ["fuzzer"], [], []).coverage.coverageType == Edge
    ensures Settle(INITIAL, ["fuzzer"], [], ["func"]).coverage.coverageType == Function
  {
    assert "fuzzer" in ["fuzzer"] && "func" in ["func"] && "edge" != "func" && "bb" != "func";
    TypeExactly(["fuzzer"], [], []);
    TypeExactly(["fuzzer"], [], ["func"]);
  }
}
