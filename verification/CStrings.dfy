/** NUL-terminated strings as the driver's C++ code reads them. A string stands for its characters without the
    terminator; a read is allowed up to and including the terminator. */
module CStrings {

  const NUL: char := '\0'

  /** The character at index i; the precondition says that the read stays inside the string. */
  function At(s: string, i: nat): char
    requires i <= |s|
  {
    if i < |s| then s[i] else NUL
  }

  /** `strcmp(s + i, t) == 0` */
  predicate EqualsAt(s: string, i: nat, t: string)
    requires i <= |s|
  {
    s[i..] == t
  }

  /** `strncmp(s + i, prefix, strlen(prefix)) == 0` */
  predicate StartsAt(s: string, i: nat, prefix: string)
    requires i <= |s|
  {
    prefix <= s[i..]
  }

  predicate IsDigit(c: char) {
    '0' <= c <= '9'
  }

  lemma BehindDash(arg: string, w: string)
    requires arg != "" && arg[0] == '-'
    ensures "-" + w <= arg <==> StartsAt(arg, 1, w)
  {
    assert arg == "-" + arg[1..];
  }
}
