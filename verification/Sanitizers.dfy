/** -fsanitize and -fsanitize-recover (driver/cl_options_sanitizers.cpp): which sanitizers are enabled and which may
    recover, as bits. */
module Sanitizers {

  import opened Common

  /** A 32-bit word, as the set of its one bits: `|` is union, and `x & bit` is membership. */
  type SanitizerBits = set<nat>

  /** The sanitizers with a name. */
  datatype Check = Address | Fuzzer | Leak | Memory | Thread

  function BitOf(c: Check): nat {
    match c
    case Address => 0
    case Fuzzer => 1
    case Memory => 2
    case Thread => 3
    case Leak => 5
  }

  const COVERAGE: nat := 4
  const SUPPORTED_RECOVERIES: SanitizerBits := {BitOf(Address), BitOf(Memory)}
  const ALL: SanitizerBits := set b | 0 <= b < 32

  function Spelling(c: Check): string {
    match c
    case Address => "address"
    case Fuzzer => "fuzzer"
    case Leak => "leak"
    case Memory => "memory"
    case Thread => "thread"
  }

  function CheckOf(name: string): Option<Check> {
    if name == "address" then Some(Address)
    else if name == "fuzzer" then Some(Fuzzer)
    else if name == "leak" then Some(Leak)
    else if name == "memory" then Some(Memory)
    else if name == "thread" then Some(Thread)
    else None
  }

  /** Each name selects the sanitizer it spells, and nothing else does. */
  lemma CheckExactly(name: string, c: Check)
    ensures CheckOf(name) == Some(c) <==> name == Spelling(c)
  {
    assert |"address"| == 7 && |"leak"| == 4;
    assert "fuzzer"[0] == 'f' && "memory"[0] == 'm' && "thread"[0] == 't';
  }

  /** The bit of a name, zero for an unknown name. */
  function ParseName(name: string): SanitizerBits {
    match CheckOf(name)
    case Some(c) => {BitOf(c)}
    case None => {}
  }

  /** What a name given to -fsanitize-recover contributes. */
  function RecoveryBits(name: string): SanitizerBits {
    if name == "all" then ALL
    else if ParseName(name) * SUPPORTED_RECOVERIES != {} then ParseName(name)
    else {}
  }

  // ---------------------------------------------------------------- collecting bits

  function Or<T>(bits: string -> set<T>, list: seq<string>): set<T> {
    if list == [] then {} else bits(list[0]) + Or(bits, list[1..])
  }

  /** A bit is set exactly if some name of the list contributes it. */
  lemma {:induction false} OrExactly<T>(bits: string -> set<T>, list: seq<string>, b: T)
    ensures b in Or(bits, list) <==> exists n <- list :: b in bits(n)
    decreases |list|
  {
    if list != [] {
      OrExactly(bits, list[1..], b);
      assert forall n :: n in list <==> n == list[0] || n in list[1..];
    }
  }

  ghost predicate SameNames(a: seq<string>, b: seq<string>) {
    forall n :: n in a <==> n in b
  }

  /** More names, more bits. */
  lemma Included<T>(bits: string -> set<T>, a: seq<string>, b: seq<string>)
    requires forall n <- a :: n in b
    ensures Or(bits, a) <= Or(bits, b)
  {
    forall bit | bit in Or(bits, a) ensures bit in Or(bits, b) {
      OrExactly(bits, a, bit);
      OrExactly(bits, b, bit);
    }
  }

  /** Neither order nor repetition matters. */
  lemma OrderIndependent<T>(bits: string -> set<T>, a: seq<string>, b: seq<string>)
    requires SameNames(a, b)
    ensures Or(bits, a) == Or(bits, b)
  {
    Included(bits, a, b);
    Included(bits, b, a);
  }

  // ---------------------------------------------------------------- the parsers

  datatype Error =
    | Unrecognized(name: string)
    | UnrecognizedRecovery(name: string)
    | RecoveryNotSupported(name: string)
    | UnrecognizedCoverage(name: string)

  function SanitizeError(name: string): seq<Error> {
    if CheckOf(name).None? then [Unrecognized(name)] else []
  }

  function RecoverError(name: string): seq<Error> {
    if name == "all" then []
    else (if CheckOf(name).None? then [UnrecognizedRecovery(name)] else []) +
         (if ParseName(name) * SUPPORTED_RECOVERIES != {} then [] else [RecoveryNotSupported(name)])
  }

  function Errors(errorsOf: string -> seq<Error>, list: seq<string>): seq<Error> {
    if list == [] then [] else errorsOf(list[0]) + Errors(errorsOf, list[1..])
  }

  lemma {:induction false} ErrorsExactly(errorsOf: string -> seq<Error>, list: seq<string>, e: Error)
    ensures e in Errors(errorsOf, list) <==> exists n <- list :: e in errorsOf(n)
    decreases |list|
  {
    if list != [] {
      ErrorsExactly(errorsOf, list[1..], e);
      assert forall n :: n in list <==> n == list[0] || n in list[1..];
    }
  }

  lemma Next<T>(bits: string -> set<T>, list: seq<string>, i: nat, retval: set<T>)
    requires i < |list|
    ensures retval + Or(bits, list[i..]) == retval + bits(list[i]) + Or(bits, list[i + 1..])
  {
    assert list[i..][1..] == list[i + 1..];
  }

  lemma NextErrors(errorsOf: string -> seq<Error>, list: seq<string>, i: nat, errors: seq<Error>)
    requires i < |list|
    ensures errors + Errors(errorsOf, list[i..]) == errors + errorsOf(list[i]) + Errors(errorsOf, list[i + 1..])
  {
    assert list[i..][1..] == list[i + 1..];
  }

  lemma Reported(errors: seq<Error>, name: string)
    ensures errors + RecoverError(name) ==
      if name == "all" then errors
      else
        var unknown := if CheckOf(name).None? then errors + [UnrecognizedRecovery(name)] else errors;
        if ParseName(name) * SUPPORTED_RECOVERIES != {} then unknown else unknown + [RecoveryNotSupported(name)]
  {
  }

  class Diagnostics {
    var errors: seq<Error>

    constructor ()
      ensures errors == []
    {
      errors := [];
    }

    method Report(error: Error)
      modifies this
      ensures errors == old(errors) + [error]
    {
      errors := errors + [error];
    }
  }

  method ParseSanitize(fSanitize: seq<string>, log: Diagnostics) returns (retval: SanitizerBits)
    modifies log
    ensures retval == Or(ParseName, fSanitize)
    ensures log.errors == old(log.errors) + Errors(SanitizeError, fSanitize)
  {
    retval := {};
    ghost var bits, all := Or(ParseName, fSanitize), log.errors + Errors(SanitizeError, fSanitize);
    for i := 0 to |fSanitize|
      invariant bits == retval + Or(ParseName, fSanitize[i..])
      invariant all == log.errors + Errors(SanitizeError, fSanitize[i..])
    {
      var name := fSanitize[i];
      Next(ParseName, fSanitize, i, retval);
      NextErrors(SanitizeError, fSanitize, i, log.errors);
      if CheckOf(name).None? {
        log.Report(Unrecognized(name));
      }
      var check := ParseName(name);
      retval := retval + check;
    }
  }

  method ParseRecover(fSanitizeRecover: seq<string>, log: Diagnostics) returns (retval: SanitizerBits)
    modifies log
    ensures retval == Or(RecoveryBits, fSanitizeRecover)
    ensures log.errors == old(log.errors) + Errors(RecoverError, fSanitizeRecover)
  {
    retval := {};
    ghost var bits, all := Or(RecoveryBits, fSanitizeRecover), log.errors + Errors(RecoverError, fSanitizeRecover);
    for i := 0 to |fSanitizeRecover|
      invariant bits == retval + Or(RecoveryBits, fSanitizeRecover[i..])
      invariant all == log.errors + Errors(RecoverError, fSanitizeRecover[i..])
    {
      var name := fSanitizeRecover[i];
      Next(RecoveryBits, fSanitizeRecover, i, retval);
      NextErrors(RecoverError, fSanitizeRecover, i, log.errors);
      Reported(log.errors, name);
      if name == "all" {
        retval := retval + ALL;
        continue;
      }
      var check := ParseName(name);
      if CheckOf(name).None? {
        log.Report(UnrecognizedRecovery(name));
      }
      if check * SUPPORTED_RECOVERIES != {} {
        retval := retval + check;
      } else {
        log.Report(RecoveryNotSupported(name));
      }
    }
  }

  // ---------------------------------------------------------------- what the results mean

  /** A sanitizer is on exactly if its name is given somewhere in the list. */
  lemma EnabledExactly(list: seq<string>, c: Check)
    ensures BitOf(c) in Or(ParseName, list) <==> Spelling(c) in list
  {
    OrExactly(ParseName, list, BitOf(c));
    forall n ensures BitOf(c) in ParseName(n) <==> n == Spelling(c) {
      CheckExactly(n, c);
    }
  }

  /** A sanitizer may recover exactly if `all` is given, or its own name and it supports recovery. So `all` also
      marks the sanitizers that do not support recovery. */
  lemma RecoveryExactly(list: seq<string>, c: Check)
    ensures BitOf(c) in Or(RecoveryBits, list) <==>
      "all" in list || ((c.Address? || c.Memory?) && Spelling(c) in list)
  {
    OrExactly(RecoveryBits, list, BitOf(c));
    forall n ensures BitOf(c) in RecoveryBits(n) <==> n == "all" || ((c.Address? || c.Memory?) && n == Spelling(c)) {
      CheckExactly(n, c);
      Supported(n);
    }
  }

  /** `-fsanitize-recover=all` marks the thread sanitizer, which is an error to name. */
  lemma AllMarksThread()
    ensures BitOf(Thread) in Or(RecoveryBits, ["all"]) && BitOf(Thread) !in SUPPORTED_RECOVERIES
    ensures Or(RecoveryBits, ["thread"]) == {}
  {
    assert "all" in ["all"];
    RecoveryExactly(["all"], Thread);
    Supported("thread");
    assert ["thread"][1..] == [];
  }

  /** Recovery is supported for exactly the address and memory sanitizers. */
  lemma Supported(name: string)
    ensures ParseName(name) * SUPPORTED_RECOVERIES != {} <==>
      CheckOf(name) == Some(Address) || CheckOf(name) == Some(Memory)
  {
    match CheckOf(name)
    case None =>
    case Some(c) =>
      assert BitOf(c) in SUPPORTED_RECOVERIES <==> BitOf(c) in {BitOf(c)} * SUPPORTED_RECOVERIES;
  }

  /** An unknown name is reported twice by -fsanitize-recover, a known one without support once. */
  lemma RecoverErrorExactly(list: seq<string>, e: Error)
    ensures e in Errors(RecoverError, list) <==>
      e.name in list && e.name != "all" &&
      ((e.UnrecognizedRecovery? && CheckOf(e.name).None?) ||
       (e.RecoveryNotSupported? && CheckOf(e.name) != Some(Address) && CheckOf(e.name) != Some(Memory)))
  {
    ErrorsExactly(RecoverError, list, e);
    forall n { Supported(n); }
  }
}
