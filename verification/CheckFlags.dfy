/** LDC's boolean command-line options for runtime checks (driver/cl_helpers.h, driver/cl_helpers.cpp,
    driver/cl_options.cpp). */
module CheckFlags {

  import opened Common

  /** CHECKENABLE */
  datatype Check = Default | Off | On | SafeOnly

  /** The value of a switch, as in `-enable-asserts=false`. */
  function ParseBool(arg: string): Option<bool> {
    if arg == "" || arg == "true" || arg == "TRUE" || arg == "True" || arg == "1" then Some(true)
    else if arg == "false" || arg == "FALSE" || arg == "False" || arg == "0" then Some(false)
    else None
  }

  predicate NamesSwitch(name: string, argName: string) {
    name == argName || (name < argName && argName[|name|] == '=')
  }

  /** What option `name` is set to by an argument; None if the argument is not one of its two switches or has no
      boolean value. */
  function ParseFlag(name: string, argName: string, arg: string): Option<bool> {
    if NamesSwitch("enable-" + name, argName) then ParseBool(arg)
    else if NamesSwitch("disable-" + name, argName) then
      match ParseBool(arg) case Some(b) => Some(!b) case None => None
    else None
  }

  /** Parses `-enable-<name>` and `-disable-<name>`. */
  class FlagParser<T(==)> {
    const trueVal: T
    const falseVal: T
    var switches: seq<(string, T)>

    constructor (trueVal: T, falseVal: T)
      ensures this.trueVal == trueVal && this.falseVal == falseVal && switches == []
    {
      this.trueVal, this.falseVal, this.switches := trueVal, falseVal, [];
    }

    ghost predicate For(name: string)
      reads this
    {
      switches == [("enable-" + name, trueVal), ("disable-" + name, falseVal)]
    }

    method Initialize(name: string)
      requires switches == []
      modifies this
      ensures For(name)
    {
      switches := switches + [("enable-" + name, trueVal)];
      switches := switches + [("disable-" + name, falseVal)];
    }

    method ParseValue(arg: string, val: T) returns (failed: bool, r: T)
      ensures match ParseBool(arg)
        case Some(b) => !failed && r == if b then trueVal else falseVal
        case None => failed && r == val
    {
      if arg == "" || arg == "true" || arg == "TRUE" || arg == "True" || arg == "1" {
        return false, trueVal;
      }
      if arg == "false" || arg == "FALSE" || arg == "False" || arg == "0" {
        return false, falseVal;
      }
      return true, val;
    }

    /** Compares the parsed value with the value of the switch that was named. */
    method Parse(ghost name: string, argName: string, arg: string, val: T) returns (failed: bool, r: T)
      requires For(name) && trueVal != falseVal
      ensures match ParseFlag(name, argName, arg)
        case Some(b) => !failed && r == if b then trueVal else falseVal
        case None => failed && r == val
    {
      r := val;
      var i := 0;
      while i < |switches|
        invariant 0 <= i <= |switches| == 2 && r == val
        invariant i > 0 ==> !NamesSwitch("enable-" + name, argName)
        invariant i > 1 ==> !NamesSwitch("disable-" + name, argName)
      {
        var (switch, second) := switches[i];
        assert switch == (if i == 0 then "enable-" + name else "disable-" + name) && second == (if i == 0 then trueVal else falseVal);
        if switch == argName || (|switch| < |argName| && argName[..|switch|] == switch && argName[|switch|] == '=') {
          assert NamesSwitch(switch, argName);
          failed, r := ParseValue(arg, r);
          if !failed {
            r := if r == second then trueVal else falseVal;
            return;
          }
          break;
        }
        assert !NamesSwitch(switch, argName);
        i := i + 1;
      }
      return true, r;
    }
  }

  /** A setting that options point to. */
  class Cell {
    var v: Check

    constructor (v: Check)
      ensures this.v == v
    {
      this.v := v;
    }
  }

  function FromBool(b: bool): Check {
    if b then On else Off
  }

  /** Sets several settings at once. */
  class MultiSetter {
    var locations: seq<Cell>
    var invert: bool

    /** The list of locations ends with a null. */
    constructor (invert: bool, ps: seq<Cell?>)
      requires null in ps
      ensures this.invert == invert
      ensures |locations| < |ps| && ps[|locations|] == null
      ensures forall k :: 0 <= k < |locations| ==> ps[k] == locations[k]
    {
      this.invert := invert;
      locations := [];
      new;
      var i := 0;
      while ps[i] != null
        invariant 0 <= i < |ps| && i == |locations| && this.invert == invert
        invariant forall k :: 0 <= k < i ==> ps[k] == locations[k]
        invariant null in ps[i..]
        decreases |ps| - i
      {
        locations := locations + [ps[i]];
        i := i + 1;
      }
    }

    method Assign(val: bool)
      modifies locations
      ensures forall l :: l in locations ==> l.v == FromBool(val != invert)
    {
      var i := 0;
      while i < |locations|
        invariant 0 <= i <= |locations|
        invariant forall k :: 0 <= k < i ==> locations[k].v == FromBool(val != invert)
      {
        locations[i].v := if val != invert then On else Off;
        i := i + 1;
      }
    }
  }

  // ---------------------------------------------------------------- the check options

  /** The settings behind the check options. */
  datatype Settings = Settings(asserts: Check, bounds: Check, useIn: Check, invariants: Check, useOut: Check, switches: Check)

  /** An option's name and value: `-name=value` or `-name`. */
  function NameOf(option: string): string {
    if option == "" || option[0] == '=' then "" else [option[0]] + NameOf(option[1..])
  }

  function ValueOf(option: string): string {
    if option == "" then "" else if option[0] == '=' then option[1..] else ValueOf(option[1..])
  }

  /** The option that the switches `enable-<base>` and `disable-<base>` belong to. */
  function BaseOf(name: string): string {
    if "enable-" <= name then name[7..] else if "disable-" <= name then name[8..] else ""
  }

  predicate IsFlag(base: string) {
    || base == "asserts" || base == "switch-errors" || base == "invariants"
    || base == "preconditions" || base == "postconditions" || base == "contracts"
  }

  function SetFlag(st: Settings, base: string, c: Check): Settings {
    if base == "asserts" then st.(asserts := c)
    else if base == "switch-errors" then st.(switches := c)
    else if base == "invariants" then st.(invariants := c)
    else if base == "preconditions" then st.(useIn := c)
    else if base == "postconditions" then st.(useOut := c)
    else if base == "contracts" then st.(useIn := c, useOut := c)
    else st
  }

  /** An option, given without its dash, changes the settings; None if it is not one of these options or its value
      is not valid. */
  function Eval(st: Settings, option: string): Option<Settings> {
    var name, value := NameOf(option), ValueOf(option);
    if name == "boundscheck" then
      if value == "on" then Some(st.(bounds := On))
      else if value == "off" then Some(st.(bounds := Off))
      else if value == "safeonly" then Some(st.(bounds := SafeOnly))
      else None
    else
      var base := BaseOf(name);
      if !IsFlag(base) then None
      else match ParseFlag(base, name, value)
        case None => None
        case Some(b) => Some(SetFlag(st, base, FromBool(b)))
  }

  /** Options are applied from left to right. */
  function EvalAll(st: Settings, options: seq<string>): Option<Settings>
    decreases |options|
  {
    if options == [] then Some(st)
    else if options[0] == "" || options[0][0] != '-' then None
    else match Eval(st, options[0][1..])
      case None => None
      case Some(st') => EvalAll(st', options[1..])
  }

  /** global.params, as far as the check options go; `contracts` sets two settings through a MultiSetter. */
  class GlobalParams {
    const useAssert: Cell
    const useArrayBounds: Cell
    const useIn: Cell
    const useInvariants: Cell
    const useOut: Cell
    const useSwitchError: Cell

    constructor ()
      ensures Valid() && fresh(Cells())
      ensures State() == Settings(Default, Default, Default, Default, Default, Default)
    {
      useAssert := new Cell(Default);
      useArrayBounds := new Cell(Default);
      useIn := new Cell(Default);
      useInvariants := new Cell(Default);
      useOut := new Cell(Default);
      useSwitchError := new Cell(Default);
    }

    ghost function Cells(): set<Cell> {
      {useAssert, useArrayBounds, useIn, useInvariants, useOut, useSwitchError}
    }

    ghost predicate Valid() {
      && useAssert !in {useArrayBounds, useIn, useInvariants, useOut, useSwitchError}
      && useArrayBounds !in {useIn, useInvariants, useOut, useSwitchError}
      && useIn !in {useInvariants, useOut, useSwitchError}
      && useInvariants !in {useOut, useSwitchError}
      && useOut != useSwitchError
    }

    ghost function State(): Settings
      reads Cells()
    {
      Settings(useAssert.v, useArrayBounds.v, useIn.v, useInvariants.v, useOut.v, useSwitchError.v)
    }

    /** An option with its own flag parser. */
    method HandleFlag(cell: Cell, name: string, argName: string, arg: string) returns (ok: bool)
      modifies cell
      ensures match ParseFlag(name, argName, arg)
        case Some(b) => ok && cell.v == FromBool(b)
        case None => !ok && cell.v == old(cell.v)
    {
      var parser := new FlagParser(On, Off);
      parser.Initialize(name);
      var failed, val := parser.Parse(name, argName, arg, Default);
      if !failed {
        cell.v := val;
      }
      return !failed;
    }

    method HandleContracts(argName: string, arg: string) returns (ok: bool)
      requires Valid()
      modifies useIn, useOut
      ensures match ParseFlag("contracts", argName, arg)
        case Some(b) => ok && useIn.v == useOut.v == FromBool(b)
        case None => !ok && useIn.v == old(useIn.v) && useOut.v == old(useOut.v)
    {
      var parser := new FlagParser(true, false);
      parser.Initialize("contracts");
      var failed, val := parser.Parse("contracts", argName, arg, false);
      if !failed {
        var ps: seq<Cell?> := [useIn, useOut, null];
        var setter := new MultiSetter(false, ps);
        assert ps[0] == useIn && ps[1] == useOut;
        assert setter.locations == [useIn, useOut];
        setter.Assign(val);
        assert useIn in [useIn, useOut] && useOut in [useIn, useOut];
      }
      return !failed;
    }

    /** One option, given without its dash. */
    method Handle(option: string) returns (ok: bool)
      requires Valid()
      modifies Cells()
      ensures match Eval(old(State()), option)
        case Some(st) => ok && State() == st
        case None => !ok && State() == old(State())
    {
      var name, value := NameOf(option), ValueOf(option);
      if name == "boundscheck" {
        ok := value == "on" || value == "off" || value == "safeonly";
        if ok {
          useArrayBounds.v := if value == "on" then On else if value == "off" then Off else SafeOnly;
        }
      } else {
        var base := BaseOf(name);
        if base == "contracts" {
          ok := HandleContracts(name, value);
        } else if base == "asserts" {
          ok := HandleFlag(useAssert, base, name, value);
        } else if base == "switch-errors" {
          ok := HandleFlag(useSwitchError, base, name, value);
        } else if base == "invariants" {
          ok := HandleFlag(useInvariants, base, name, value);
        } else if base == "preconditions" {
          ok := HandleFlag(useIn, base, name, value);
        } else if base == "postconditions" {
          ok := HandleFlag(useOut, base, name, value);
        } else {
          ok := false;
        }
      }
    }
  }
}
