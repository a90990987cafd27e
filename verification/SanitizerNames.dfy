/** The sanitizer settings by the spelled-out names, members and bits (driver/cl_options_sanitizers.cpp,
    driver/cl_options_sanitizers.h). */
module SanitizerNames {

  import opened Common
  import opened Sanitizers
  import opened SanitizerOptions

  /** The enabled bits: one for each named sanitizer, and bit 4 for the coverage sanitizer exactly if the fuzzer or any
      coverage name is given. */
  lemma EnabledBits(san: seq<string>, rec: seq<string>, cov: seq<string>, b: nat)
    ensures b in Settle(INITIAL, san, rec, cov).enabled <==>
      if b == 0 then "address" in san
      else if b == 1 then "fuzzer" in san
      else if b == 2 then "memory" in san
      else if b == 3 then "thread" in san
      else if b == 4 then "fuzzer" in san || cov != []
      else b == 5 && "leak" in san
  {
    EnabledExactly(san, Address);
    EnabledExactly(san, Fuzzer);
    EnabledExactly(san, Memory);
    EnabledExactly(san, Thread);
    EnabledExactly(san, Leak);
    OrExactly(ParseName, san, b);
  }

  /** The recovery bits: `all` sets all 32, and of the names only two set theirs. */
  lemma RecoveryBitsByName(san: seq<string>, rec: seq<string>, cov: seq<string>, b: nat)
    ensures b in Settle(INITIAL, san, rec, cov).recoveries <==>
      ("all" in rec && b < 32) || ("address" in rec && b == 0) || ("memory" in rec && b == 2)
  {
    OrExactly(RecoveryBits, rec, b);
    forall n ensures b in RecoveryBits(n) <==>
      (n == "all" && b < 32) || (n == "address" && b == 0) || (n == "memory" && b == 2)
    {
      Supported(n);
      CheckExactly(n, Address);
      CheckExactly(n, Memory);
      assert "all" != "address" && "all" != "memory";
    }
  }

  lemma Given(san: seq<string>, rec: seq<string>, cov: seq<string>, f: Flag, fuzzer: bool)
    requires fuzzer == (f in FUZZER_FLAGS)
    ensures f in Settle(INITIAL, san, rec, cov).coverage.flags <==> FlagSpelling(f) in cov || (fuzzer && "fuzzer" in san)
  {
    FlagGiven(san, rec, cov, f);
  }

  /** The four members that the fuzzer turns on without being named. */
  lemma FuzzerMembers(san: seq<string>, rec: seq<string>, cov: seq<string>)
    ensures
      var flags := Settle(INITIAL, san, rec, cov).coverage.flags;
      && (Inline8bitCounters in flags <==> "inline-8bit-counters" in cov || "fuzzer" in san)
      && (PCTable in flags <==> "pc-table" in cov || "fuzzer" in san)
      && (IndirectCalls in flags <==> "indirect-calls" in cov || "fuzzer" in san)
      && (TraceCmp in flags <==> "trace-cmp" in cov || "fuzzer" in san)
  {
    Given(san, rec, cov, Inline8bitCounters, true);
    Given(san, rec, cov, PCTable, true);
    Given(san, rec, cov, IndirectCalls, true);
    Given(san, rec, cov, TraceCmp, true);
  }

  /** The other members are on exactly if they are named. */
  lemma TraceMembers(san: seq<string>, rec: seq<string>, cov: seq<string>)
    ensures
      var flags := Settle(INITIAL, san, rec, cov).coverage.flags;
      && (TraceBB in flags <==> "trace-bb" in cov)
      && (TraceDiv in flags <==> "trace-div" in cov)
      && (TraceGep in flags <==> "trace-gep" in cov)
      && (TraceLoads in flags <==> "trace-loads" in cov)
      && (TraceStores in flags <==> "trace-stores" in cov)
  {
    Given(san, rec, cov, TraceBB, false);
    Given(san, rec, cov, TraceDiv, false);
    Given(san, rec, cov, TraceGep, false);
    Given(san, rec, cov, TraceLoads, false);
    Given(san, rec, cov, TraceStores, false);
  }

  lemma PCMembers(san: seq<string>, rec: seq<string>, cov: seq<string>)
    ensures
      var flags := Settle(INITIAL, san, rec, cov).coverage.flags;
      && (TracePC in flags <==> "trace-pc" in cov)
      && (TracePCGuard in flags <==> "trace-pc-guard" in cov)
  {
    Given(san, rec, cov, TracePC, false);
    Given(san, rec, cov, TracePCGuard, false);
  }

  lemma OtherMembers(san: seq<string>, rec: seq<string>, cov: seq<string>)
    ensures
      var flags := Settle(INITIAL, san, rec, cov).coverage.flags;
      && (Use8bitCounters in flags <==> "8bit-counters" in cov)
      && (NoPrune in flags <==> "no-prune" in cov)
  {
    Given(san, rec, cov, Use8bitCounters, false);
    Given(san, rec, cov, NoPrune, false);
  }

  /** The coverage type by the names given. */
  lemma TypeByName(san: seq<string>, rec: seq<string>, cov: seq<string>)
    ensures Settle(INITIAL, san, rec, cov).coverage.coverageType ==
      if "edge" in cov then Edge
      else if "bb" in cov then BB
      else if "func" in cov then Function
      else if "fuzzer" in san || "trace-pc" in cov || "trace-pc-guard" in cov || "inline-8bit-counters" in cov then Edge
      else NoCoverage
  {
    TypeExactly(san, rec, cov);
  }

  // ---------------------------------------------------------------- errors

  /** Errors are reported in the order of the names. */
  lemma {:induction false} ErrorsAppend(errorsOf: string -> seq<Error>, a: seq<string>, b: seq<string>)
    ensures Errors(errorsOf, a + b) == Errors(errorsOf, a) + Errors(errorsOf, b)
    decreases |a|
  {
    if a == [] {
      assert a + b == b;
    } else {
      ErrorsAppend(errorsOf, a[1..], b);
      assert (a + b)[1..] == a[1..] + b;
      Assoc(errorsOf(a[0]), Errors(errorsOf, a[1..]), Errors(errorsOf, b));
    }
  }

  /** What each name given to the three options reports. */
  lemma ErrorsByName(name: string)
    ensures
      var known := name == "address" || name == "fuzzer" || name == "leak" || name == "memory" || name == "thread";
      && SanitizeError(name) == (if known then [] else [Unrecognized(name)])
      && RecoverError(name) ==
        if name == "all" || name == "address" || name == "memory" then []
        else if known then [RecoveryNotSupported(name)]
        else [UnrecognizedRecovery(name), RecoveryNotSupported(name)]
  {
    Supported(name);
    assert "all" != "address" && "all" != "memory";
  }

  lemma CoverageErrorByName(name: string)
    ensures CoverageError(name) ==
      if name == "func" || name == "bb" || name == "edge" || name == "indirect-calls" || name == "trace-bb"
        || name == "trace-cmp" || name == "trace-div" || name == "trace-gep" || name == "trace-loads"
        || name == "trace-stores" || name == "8bit-counters" || name == "trace-pc" || name == "trace-pc-guard"
        || name == "inline-8bit-counters" || name == "no-prune" || name == "pc-table"
      then []
      else [UnrecognizedCoverage(name)]
  {
  }
}
