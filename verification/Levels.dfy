/** The numeric values of `-debug=` and `-version=` (driver/ldmd.cpp): a number is parsed with `strtol`, checked
    against INT_MAX, and printed again. */
module Levels {

  import opened CStrings
  import opened Common

  const INT_MAX: int := 0x7fff_ffff

  /** The buffer that the number is printed to, and the room for characters in it. */
  const BUFFER_SIZE: int := 14

  function DigitsEnd(s: string, i: nat): (end: nat)
    requires i <= |s|
    ensures i <= end <= |s|
    ensures forall k :: i <= k < end ==> IsDigit(s[k])
    ensures end < |s| ==> !IsDigit(s[end])
    decreases |s| - i
  {
    if i < |s| && IsDigit(s[i]) then DigitsEnd(s, i + 1) else i
  }

  predicate AllDigits(s: string) {
    forall c <- s :: IsDigit(c)
  }

  function DigitValue(c: char): nat
    requires IsDigit(c)
  {
    c as int - '0' as int
  }

  /** The number a string of digits denotes. */
  function Value(s: string): nat
    requires AllDigits(s)
  {
    if s == "" then 0 else 10 * Value(s[..|s| - 1]) + DigitValue(s[|s| - 1])
  }

  /** The result of `strtol`: the value, saturated at LONG_MAX; where parsing stopped; whether `errno` was set. */
  datatype Parsed = Parsed(level: nat, end: nat, errno: bool)

  function Strtol(s: string, i: nat, longMax: nat): Parsed
    requires i <= |s|
  {
    var end := DigitsEnd(s, i);
    var value := Value(s[i..end]);
    if value > longMax then Parsed(longMax, end, true) else Parsed(value, end, false)
  }

  /** `%d` of a non-negative number */
  function Print(n: nat): string {
    if n < 10 then [('0' as int + n) as char] else Print(n / 10) + [('0' as int + n % 10) as char]
  }

  /** The level denoted by the rest of s from i on, if the code accepts it. */
  function ParseLevel(s: string, i: nat, longMax: nat): Option<nat>
    requires i <= |s|
  {
    var r := Strtol(s, i, longMax);
    if At(s, r.end) != NUL || r.errno || r.level > INT_MAX then None else Some(r.level)
  }

  // ---------------------------------------------------------------- properties

  /** A level is accepted exactly if it is all digits and at most INT_MAX, and it is then the number denoted. */
  lemma AcceptedExactly(s: string, i: nat, longMax: nat)
    requires i <= |s| && NUL !in s && longMax >= INT_MAX
    ensures ParseLevel(s, i, longMax).Some? <==> AllDigits(s[i..]) && Value(s[i..]) <= 2147483647
    ensures ParseLevel(s, i, longMax).Some? ==> ParseLevel(s, i, longMax).value == Value(s[i..])
  {
    var end := DigitsEnd(s, i);
    if end < |s| {
      assert s[i..][end - i] == s[end];
      assert s[end] in s[i..];
    } else {
      assert s[i..end] == s[i..];
    }
  }

  /** The number digits denote, from left to right. */
  lemma ValueExactly(s: string, c: char)
    requires AllDigits(s) && '0' <= c <= '9'
    ensures Value("") == 0 && AllDigits(s + [c]) && Value(s + [c]) == 10 * Value(s) + (c as int - 48)
  {
    assert (s + [c])[..|s|] == s;
  }

  lemma AllDigitsExactly(s: string)
    ensures AllDigits(s) <==> forall k :: 0 <= k < |s| ==> '0' <= s[k] <= '9'
  {
    if forall k :: 0 <= k < |s| ==> '0' <= s[k] <= '9' {
      forall c | c in s ensures IsDigit(c) {
        var k :| 0 <= k < |s| && s[k] == c;
      }
    }
    if AllDigits(s) {
      forall k | 0 <= k < |s| ensures '0' <= s[k] <= '9' {
        assert s[k] in s;
      }
    }
  }

  lemma {:induction false} PrintIsDigits(n: nat)
    ensures AllDigits(Print(n)) && Print(n) != ""
    ensures Value(Print(n)) == n
    ensures n > 0 ==> Print(n)[0] != '0'
  {
    var c := ('0' as int + n % 10) as char;
    if n < 10 {
      assert Print(n)[..0] == "";
    } else {
      PrintIsDigits(n / 10);
      assert Print(n)[..|Print(n)| - 1] == Print(n / 10);
    }
  }

  /** The printed level with its terminator fits the buffer. */
  lemma FitsBuffer(n: nat)
    requires n <= 2147483647
    ensures |Print(n)| + 1 <= BUFFER_SIZE == 14
  {
    PrintLength(n, 10);
  }

  function Pow10(k: nat): nat {
    if k == 0 then 1 else 10 * Pow10(k - 1)
  }

  lemma {:induction false} PrintLength(n: nat, k: nat)
    requires k >= 1 && n < Pow10(k)
    ensures |Print(n)| <= k
    decreases k
  {
    if n >= 10 {
      assert k > 1 by { assert Pow10(1) == 10 * Pow10(0); }
      PrintLength(n / 10, k - 1);
    }
  }

  function WithoutLeadingZeros(s: string): string {
    if |s| > 1 && s[0] == '0' then WithoutLeadingZeros(s[1..]) else s
  }

  /** Printing the number a string of digits denotes gives the string without leading zeros. */
  lemma {:induction false} PrintedBack(s: string)
    requires AllDigits(s) && s != ""
    ensures Print(Value(s)) == WithoutLeadingZeros(s)
    decreases |s|
  {
    if |s| > 1 && s[0] == '0' {
      LeadingZero(s);
      PrintedBack(s[1..]);
    } else if |s| > 1 {
      var front, last := s[..|s| - 1], s[|s| - 1];
      assert AllDigits(front) && front[0] == s[0];
      assert last in s;
      PrintedBack(front);
      Positive(front);
      assert s == front + [last];
    } else {
      assert s[0] in s && s[..0] == "";
      assert s == [s[0]];
    }
  }

  lemma {:induction false} LeadingZero(s: string)
    requires AllDigits(s) && |s| > 0 && s[0] == '0'
    ensures Value(s[1..]) == Value(s)
  {
    if |s| > 1 {
      var front := s[..|s| - 1];
      LeadingZero(front);
      assert front[1..] == s[1..][..|s| - 2];
    } else {
      assert s[..0] == "" && s[1..] == "";
    }
  }

  lemma {:induction false} Positive(s: string)
    requires AllDigits(s) && s != "" && s[0] != '0'
    ensures Value(s) > 0
  {
    assert s[0] in s && s[|s| - 1] in s;
    if |s| > 1 {
      Positive(s[..|s| - 1]);
    }
  }
}
