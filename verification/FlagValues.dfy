/** LDC's check options by their spelled-out names and values (driver/cl_helpers.h, driver/cl_options.cpp). */
module FlagValues {

  import opened CheckFlags
  import opened CheckTranslation
  import opened Common

  /** The value of either switch of an option, by its spelling: `disable-` turns it around, and what is no boolean is
      refused. Without a value the switch itself decides. */
  lemma SwitchValues(st: Settings, base: string, value: string)
    requires base == "asserts" || base == "switch-errors" || base == "invariants"
      || base == "preconditions" || base == "postconditions" || base == "contracts"
    ensures
      var yes := value == "" || value == "true" || value == "TRUE" || value == "True" || value == "1";
      var no := value == "false" || value == "FALSE" || value == "False" || value == "0";
      && Eval(st, "enable-" + base + "=" + value) ==
        (if yes then Some(SetFlag(st, base, On)) else if no then Some(SetFlag(st, base, Off)) else None)
      && Eval(st, "disable-" + base + "=" + value) ==
        (if yes then Some(SetFlag(st, base, Off)) else if no then Some(SetFlag(st, base, On)) else None)
    ensures Eval(st, "enable-" + base) == Some(SetFlag(st, base, On))
    ensures Eval(st, "disable-" + base) == Some(SetFlag(st, base, Off))
  {
    EvalFlag(st, base, true);
    EvalFlag(st, base, false);
    EvalSwitch(st, base, true, value);
    EvalSwitch(st, base, false, value);
    BoolExactly(value);
  }

  lemma EvalSwitch(st: Settings, base: string, b: bool, value: string)
    requires IsFlag(base)
    ensures Eval(st, SwitchFor(base, b) + "=" + value) ==
      match ParseBool(value)
      case None => None
      case Some(v) => Some(SetFlag(st, base, FromBool(v == b)))
  {
    var name := SwitchFor(base, b);
    NoEqualsInSwitch(base, b);
    NameWithValue(name, value);
    FlagValue(base, b);
    assert name[0] != 'b' && "boundscheck"[0] == 'b';
    ParsedBy(base, b, value);
  }

  lemma ParsedBy(base: string, b: bool, value: string)
    ensures ParseFlag(base, SwitchFor(base, b), value) ==
      match ParseBool(value) case None => None case Some(v) => Some(v == b)
  {
    assert ("enable-" + base)[0] == 'e' && ("disable-" + base)[0] == 'd';
  }

  lemma NoEqualsInSwitch(base: string, b: bool)
    requires IsFlag(base)
    ensures '=' !in SwitchFor(base, b)
  {
    NoEquals(base);
    assert '=' !in "enable-" && '=' !in "disable-";
  }

  lemma BoolExactly(value: string)
    ensures
      var yes := value == "" || value == "true" || value == "TRUE" || value == "True" || value == "1";
      var no := value == "false" || value == "FALSE" || value == "False" || value == "0";
      ParseBool(value) == if yes then Some(true) else if no then Some(false) else None
  {
  }

  /** The setting behind each option; `contracts` is behind two. */
  lemma SettingOf(st: Settings, c: Check)
    ensures SetFlag(st, "asserts", c) == st.(asserts := c)
    ensures SetFlag(st, "switch-errors", c) == st.(switches := c)
    ensures SetFlag(st, "invariants", c) == st.(invariants := c)
    ensures SetFlag(st, "preconditions", c) == st.(useIn := c)
    ensures SetFlag(st, "postconditions", c) == st.(useOut := c)
    ensures SetFlag(st, "contracts", c) == st.(useIn := c, useOut := c)
  {
    assert "asserts"[0] == 'a' && "switch-errors"[0] == 's' && "invariants"[0] == 'i' && "contracts"[0] == 'c';
    assert "preconditions"[1] == 'r' && "postconditions"[1] == 'o';
  }

  lemma BoundsValues(st: Settings, value: string)
    ensures Eval(st, "boundscheck=" + value) ==
      if value == "on" then Some(st.(bounds := On))
      else if value == "off" then Some(st.(bounds := Off))
      else if value == "safeonly" then Some(st.(bounds := SafeOnly))
      else None
    ensures Eval(st, "boundscheck").None?
  {
    assert '=' !in "boundscheck";
    NameWithoutValue("boundscheck");
    BoundsOption(st, "boundscheck=" + value, value);
  }

  lemma BoundsOption(st: Settings, option: string, value: string)
    requires option == "boundscheck=" + value
    ensures Eval(st, option) ==
      if value == "on" then Some(st.(bounds := On))
      else if value == "off" then Some(st.(bounds := Off))
      else if value == "safeonly" then Some(st.(bounds := SafeOnly))
      else None
  {
    assert "boundscheck=" == "boundscheck" + "=";
    Assoc("boundscheck", "=", value);
    OptionParts("boundscheck", option, value);
  }

  lemma OptionParts(name: string, option: string, value: string)
    requires '=' !in name && option == name + ("=" + value)
    ensures NameOf(option) == name && ValueOf(option) == value
  {
    Assoc(name, "=", value);
    NameWithValue(name, value);
  }

  /** Any other option is none of these, with or without a value. */
  lemma OtherOption(st: Settings, name: string, value: string)
    requires '=' !in name && name != "boundscheck"
    requires name != "enable-asserts" && name != "enable-switch-errors" && name != "enable-invariants"
    requires name != "enable-preconditions" && name != "enable-postconditions" && name != "enable-contracts"
    requires name != "disable-asserts" && name != "disable-switch-errors" && name != "disable-invariants"
    requires name != "disable-preconditions" && name != "disable-postconditions" && name != "disable-contracts"
    ensures Eval(st, name).None? && Eval(st, name + "=" + value).None?
  {
    NameWithoutValue(name);
    NameWithValue(name, value);
    NoBase(name);
  }

  lemma NoBase(name: string)
    requires name != "enable-asserts" && name != "enable-switch-errors" && name != "enable-invariants"
    requires name != "enable-preconditions" && name != "enable-postconditions" && name != "enable-contracts"
    requires name != "disable-asserts" && name != "disable-switch-errors" && name != "disable-invariants"
    requires name != "disable-preconditions" && name != "disable-postconditions" && name != "disable-contracts"
    ensures !IsFlag(BaseOf(name))
  {
    if "enable-" <= name {
      assert name == "enable-" + name[7..];
      EnableNames();
    } else if "disable-" <= name {
      assert name == "disable-" + name[8..];
      DisableNames();
    }
  }

  lemma EnableNames()
    ensures "enable-" + "asserts" == "enable-asserts" && "enable-" + "switch-errors" == "enable-switch-errors"
    ensures "enable-" + "invariants" == "enable-invariants" && "enable-" + "preconditions" == "enable-preconditions"
    ensures "enable-" + "postconditions" == "enable-postconditions" && "enable-" + "contracts" == "enable-contracts"
  {
  }

  lemma DisableNames()
    ensures "disable-" + "asserts" == "disable-asserts" && "disable-" + "switch-errors" == "disable-switch-errors"
    ensures "disable-" + "invariants" == "disable-invariants" && "disable-" + "preconditions" == "disable-preconditions"
    ensures "disable-" + "postconditions" == "disable-postconditions" && "disable-" + "contracts" == "disable-contracts"
  {
  }

  /** The names a flag parser takes: its two switches, alone or with a value attached. */
  lemma NamesExactly(name: string, argName: string)
    ensures ParseFlag(name, argName, "true").Some? <==>
      argName == "enable-" + name || "enable-" + name + "=" <= argName ||
      argName == "disable-" + name || "disable-" + name + "=" <= argName
  {
    Attached("enable-" + name, argName);
    Attached("disable-" + name, argName);
  }

  lemma Attached(switch: string, argName: string)
    ensures NamesSwitch(switch, argName) <==> argName == switch || switch + "=" <= argName
  {
    if switch + "=" <= argName {
      assert argName[|switch|] == (switch + "=")[|switch|] == '=';
      assert argName[..|switch|] == (switch + "=")[..|switch|] == switch;
    }
  }
}
