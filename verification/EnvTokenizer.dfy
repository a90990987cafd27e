/** The splitting of the DFLAGS environment variable into arguments (`appendEnvVar` in driver/ldmd.cpp).

    The code reads and compacts one character buffer in place: `env` is the read cursor, `p` the write
    cursor, `slash` the number of backslashes just written. The specification only reads; it holds
    backslashes back until it sees what follows them. */
module EnvTokenizer {

  import opened CStrings
  import opened Common

  const QUOTE: char := '"'
  const BACKSLASH: char := '\\'

  predicate IsBlank(c: char) {
    c == ' ' || c == '\t'
  }

  function Slashes(n: nat): (s: string)
    ensures |s| == n
    ensures forall i :: 0 <= i < n ==> s[i] == BACKSLASH
  {
    if n == 0 then "" else Slashes(n - 1) + [BACKSLASH]
  }

  // ---------------------------------------------------------------- specification

  /** A scanned token and the position behind it. */
  datatype Scanned = Scanned(token: string, next: nat)

  function Prefixed(front: string, r: Scanned): Scanned {
    r.(token := front + r.token)
  }

  /** Scans the rest of a token from position i of s, n backslashes being held back.
      An even run of 2k backslashes before a quote gives k backslashes, and the quote toggles quoting;
      an odd run of 2k+1 gives k backslashes and a literal quote; other backslashes stand for themselves.
      A blank ends the token unless quoted, and so does the end of the text, quoted or not. */
  function Scan(s: string, i: nat, n: nat, quoted: bool): (r: Scanned)
    requires i <= |s|
    ensures i <= r.next <= |s| && (i < |s| ==> i < r.next)
    decreases |s| - i
  {
    if i == |s| then Scanned(Slashes(n), i)
    else if s[i] == BACKSLASH then Scan(s, i + 1, n + 1, quoted)
    else if s[i] == QUOTE then
      if n % 2 == 0 then Prefixed(Slashes(n / 2), Scan(s, i + 1, 0, !quoted))
      else Prefixed(Slashes(n / 2) + [QUOTE], Scan(s, i + 1, 0, quoted))
    else if IsBlank(s[i]) && !quoted then Scanned(Slashes(n), i + 1)
    else Prefixed(Slashes(n) + [s[i]], Scan(s, i + 1, 0, quoted))
  }

  function Tokens(s: string, i: nat): seq<string>
    requires i <= |s|
    decreases |s| - i
  {
    if i == |s| then []
    else if IsBlank(s[i]) then Tokens(s, i + 1)
    else
      var r := Scan(s, i, 0, false);
      [r.token] + Tokens(s, r.next)
  }

  // ---------------------------------------------------------------- the in-place tokenizer

  /** The C string starting at an index: the characters up to the next NUL. */
  function CString(buffer: seq<char>, i: nat): string
    decreases |buffer| - i
  {
    if i >= |buffer| || buffer[i] == NUL then "" else [buffer[i]] + CString(buffer, i + 1)
  }

  /** `word` is written in the buffer from index i on. */
  ghost predicate Written(buffer: seq<char>, i: nat, word: string) {
    && i + |word| <= |buffer|
    && forall m :: i <= m < i + |word| ==> buffer[m] == word[m - i]
  }

  /** `token` is stored, with its terminator, at index i and ends before `bound`. */
  ghost predicate StoredAt(buffer: seq<char>, i: nat, token: string, bound: nat) {
    && i + |token| < bound <= |buffer|
    && Written(buffer, i, token)
    && buffer[i + |token|] == NUL
    && NUL !in token
  }

  ghost predicate AllStored(buffer: seq<char>, ptrs: seq<nat>, tokens: seq<string>, bound: nat) {
    && |ptrs| == |tokens|
    && forall k :: 0 <= k < |ptrs| ==> StoredAt(buffer, ptrs[k], tokens[k], bound)
  }

  ghost predicate SameFrom(a: seq<char>, b: seq<char>, i: nat) {
    |a| == |b| && forall k :: i <= k < |a| ==> a[k] == b[k]
  }

  ghost predicate SameBefore(a: seq<char>, b: seq<char>, i: nat) {
    |a| == |b| && forall k :: 0 <= k < i && k < |a| ==> a[k] == b[k]
  }

  /** The buffer holds a text and its terminator. */
  ghost predicate Terminated(buffer: seq<char>, text: string) {
    |buffer| == |text| + 1 && buffer[|text|] == NUL && (forall k :: 0 <= k < |text| ==> buffer[k] == text[k])
  }

  /** The token being written from `start`: `done` followed by `slash` backslashes stands there, the write
      cursor stays between the token start and the read cursor, and neither the buffer before the token
      nor the unread text has been touched. */
  ghost predicate Layout(before: seq<char>, now: seq<char>, start: nat, env: nat, slash: nat, done: string) {
    && start + |done| + slash <= env < |now|
    && Written(now, start, done + Slashes(slash)) && NUL !in done
    && SameBefore(before, now, start) && SameFrom(before, now, env)
  }

  /** What remains to be scanned completes `done` to the token. */
  ghost predicate Progress(text: string, start: nat, env: nat, slash: nat, quoted: bool, done: string) {
    && start <= env <= |text|
    && Scan(text, start, 0, false) == Prefixed(done, Scan(text, env, slash, quoted))
  }

  /** The state of the inner loop between two characters. */
  ghost predicate Scanning(text: string, before: seq<char>, now: seq<char>, start: nat, env: nat, slash: nat,
                           quoted: bool, done: string) {
    && |now| == |text| + 1 && SameFrom(before, text + [NUL], start) && NUL !in text
    && Layout(before, now, start, env, slash, done) && Progress(text, start, env, slash, quoted, done)
  }

  /** What reading a character that does not end the token adds to it, and the state it leaves. */
  function Front(c: char, slash: nat): string {
    if c == BACKSLASH then ""
    else if c == QUOTE then Slashes(slash / 2) + (if slash % 2 == 1 then [QUOTE] else "")
    else Slashes(slash) + [c]
  }

  function Held(c: char, slash: nat): nat {
    if c == BACKSLASH then slash + 1 else 0
  }

  predicate QuotedAfter(c: char, slash: nat, quoted: bool) {
    if c == QUOTE && slash % 2 == 0 then !quoted else quoted
  }

  /** The inner loop: compacts one token in place, from `start`, and moves `env` behind it. */
  method ScanInPlace(buffer: array<char>, start: nat, ghost text: string) returns (env: nat, ended: bool)
    requires start < |text| && buffer.Length == |text| + 1
    requires SameFrom(buffer[..], text + [NUL], start) && NUL !in text && !IsBlank(text[start])
    modifies buffer
    ensures TokenStored(text, old(buffer[..]), buffer[..], start, env, ended)
  {
    ghost var before := buffer[..];
    ghost var done := "";
    StartToken(text, before, start);
    env, ended := start, false;
    var p: nat, slash: nat, inString := start, 0, false;
    var more := true;
    while more
      invariant more ==> Scanning(text, before, buffer[..], start, env, slash, inString, done) && p == start + |done| + slash
      invariant !more ==> TokenStored(text, before, buffer[..], start, env, ended)
      decreases more, buffer.Length - env
    {
      more, env, ended, p, slash, inString, done :=
        Round(buffer, env, p, slash, inString, text, before, start, done);
    }
  }

  /** One round: reads a character, and either ends the token or writes the character. */
  method Round(buffer: array<char>, env: nat, p: nat, slash: nat, inString: bool,
               ghost text: string, ghost before: seq<char>, ghost start: nat, ghost done: string)
      returns (more: bool, env': nat, ended: bool, p': nat, slash': nat, inString': bool, ghost done': string)
    requires Scanning(text, before, buffer[..], start, env, slash, inString, done) && p == start + |done| + slash
    modifies buffer
    ensures env < env' <= buffer.Length
    ensures more ==>
      Scanning(text, before, buffer[..], start, env', slash', inString', done') && p' == start + |done'| + slash'
    ensures !more ==> TokenStored(text, before, buffer[..], start, env', ended)
  {
    ghost var b := buffer[..];
    NextChar(text, before, b, start, env, slash, inString, done);
    var c := buffer[env];
    env', p', slash', inString', done', ended := env + 1, p, slash, inString, done, false;
    if c == NUL || (IsBlank(c) && !inString) {
      EndToken(text, before, b, start, env, slash, inString, done);
      buffer[p] := NUL;
      assert buffer[..] == b[p := NUL];
      return false, env', c == NUL, p', slash', inString', done';
    }
    p', slash', inString' := Put(buffer, c, p, slash, inString);
    KeepScanning(text, before, b, buffer[..], start, env, slash, inString, done);
    done' := done + Front(c, slash);
    more := true;
  }

  /** The buffer after writing a character behind `slash` backslashes: a quote is written over them or not at all. */
  function Rewritten(b: seq<char>, c: char, p: nat, slash: nat): seq<char>
    requires slash <= p < |b|
  {
    if c != QUOTE then b[p := c] else if slash % 2 == 1 then b[p - slash / 2 - 1 := c] else b
  }

  /** The cases of the inner loop that go on with the token. */
  method Put(buffer: array<char>, c: char, p: nat, slash: nat, inString: bool)
      returns (p': nat, slash': nat, inString': bool)
    requires slash <= p < buffer.Length
    modifies buffer
    ensures slash' == Held(c, slash) && inString' == QuotedAfter(c, slash, inString)
    ensures p' == p - slash + |Front(c, slash)| + slash'
    ensures buffer[..] == Rewritten(old(buffer[..]), c, p, slash)
  {
    p', slash', inString' := p, slash, inString;
    if c == QUOTE {
      p' := p' - slash' / 2;
      if slash' % 2 == 1 {
        p' := p' - 1;
      } else {
        inString' := !inString';
        slash' := 0;
        return;
      }
    }
    slash' := if c == BACKSLASH then slash' + 1 else 0;
    buffer[p'] := c;
    p' := p' + 1;
  }

  lemma StartToken(text: string, buffer: seq<char>, start: nat)
    requires start < |text| && |buffer| == |text| + 1 && SameFrom(buffer, text + [NUL], start) && NUL !in text
    ensures Scanning(text, buffer, buffer, start, start, 0, false, "")
  {
    assert Prefixed("", Scan(text, start, 0, false)) == Scan(text, start, 0, false);
  }

  /** The next character is the text's, and there is room to write behind the cursor. */
  lemma NextChar(text: string, before: seq<char>, now: seq<char>, start: nat, env: nat, slash: nat, quoted: bool, done: string)
    requires Scanning(text, before, now, start, env, slash, quoted, done)
    ensures env < |now| && now[env] == (if env == |text| then NUL else text[env])
    ensures start + |done| + slash <= env && (env < |text| ==> text[env] != NUL)
  {
    assert (text + [NUL])[env] == now[env];
  }

  /** One round of the inner loop. */
  lemma KeepScanning(text: string, before: seq<char>, b: seq<char>, b': seq<char>, start: nat, env: nat, slash: nat,
                     quoted: bool, done: string)
    requires Scanning(text, before, b, start, env, slash, quoted, done)
    requires env < |text| && !(IsBlank(text[env]) && !quoted)
    requires start + |done| + slash < |b| && b' == Rewritten(b, text[env], start + |done| + slash, slash)
    ensures
      var c := text[env];
      Scanning(text, before, b', start, env + 1, Held(c, slash), QuotedAfter(c, slash, quoted), done + Front(c, slash))
  {
    KeepLayout(before, b, b', start, env, text[env], slash, done);
    KeepProgress(text, start, env, slash, quoted, done);
  }

  /** The token scanned from `start` stands there with its terminator, and behind it the scan goes on at `env`;
      nothing in front of the token and nothing unread has changed. */
  ghost predicate TokenStored(text: string, before: seq<char>, now: seq<char>, start: nat, env: nat, ended: bool)
    requires start <= |text|
  {
    var r := Scan(text, start, 0, false);
    && ended == (env == |now|) && r.next == (if ended then |text| else env)
    && StoredAt(now, start, r.token, env)
    && SameBefore(before, now, start) && SameFrom(before, now, env)
  }

  lemma EndToken(text: string, before: seq<char>, b: seq<char>, start: nat, env: nat, slash: nat, quoted: bool, done: string)
    requires Scanning(text, before, b, start, env, slash, quoted, done) && start + |done| + slash < |b|
    requires env < |text| ==> IsBlank(text[env]) && !quoted
    ensures TokenStored(text, before, b[start + |done| + slash := NUL], start, env + 1, env == |text|)
  {}

  /** Writing the character and moving the write cursor leaves `done` plus its front part plus the
      backslashes held back in the buffer; a quote drops half of the backslashes before it. */
  lemma KeepLayout(before: seq<char>, b: seq<char>, b': seq<char>, start: nat, env: nat, c: char, slash: nat, done: string)
    requires Layout(before, b, start, env, slash, done) && env + 1 < |b| && c != NUL
    requires
      var p := start + |done| + slash;
      b' == if c != QUOTE then b[p := c] else if slash % 2 == 1 then b[p - slash / 2 - 1 := c] else b
    ensures Layout(before, b', start, env + 1, Held(c, slash), done + Front(c, slash))
  {
    var p := start + |done| + slash;
    var word := done + Front(c, slash) + Slashes(Held(c, slash));
    forall m | start <= m < start + |word| ensures b'[m] == word[m - start] {
      if m < p {
        assert b[m] == (done + Slashes(slash))[m - start];
      }
    }
  }

  lemma KeepProgress(text: string, start: nat, env: nat, slash: nat, quoted: bool, done: string)
    requires Progress(text, start, env, slash, quoted, done)
    requires env < |text| && !(IsBlank(text[env]) && !quoted)
    ensures
      var c := text[env];
      Progress(text, start, env + 1, Held(c, slash), QuotedAfter(c, slash, quoted), done + Front(c, slash))
  {
    var c := text[env];
    var r := Scan(text, env + 1, Held(c, slash), QuotedAfter(c, slash, quoted));
    assert "" + r.token == r.token;
    PrefixedTwice(done, Front(c, slash), r);
  }

  lemma PrefixedTwice(a: string, b: string, r: Scanned)
    ensures Prefixed(a, Prefixed(b, r)) == Prefixed(a + b, r)
  {
    assert a + (b + r.token) == a + b + r.token;
  }

  /** Splits a NUL-terminated buffer in place; the results are the indices of its tokens. */
  method SplitInPlace(buffer: array<char>) returns (ptrs: seq<nat>)
    requires buffer.Length > 0 && buffer[buffer.Length - 1] == NUL
    requires NUL !in buffer[..buffer.Length - 1]
    modifies buffer
    ensures var tokens := Tokens(old(buffer[..buffer.Length - 1]), 0);
      && |ptrs| == |tokens|
      && forall k :: 0 <= k < |ptrs| ==> ptrs[k] < buffer.Length && CString(buffer[..], ptrs[k]) == tokens[k]
  {
    ghost var text := buffer[..buffer.Length - 1];
    ghost var tokens := [];
    var env, ended := 0, false;
    ptrs := [];
    assert buffer[..] == text + [NUL];
    while true
      invariant env <= |text| && Tokens(text, 0) == tokens + Tokens(text, env)
      invariant SameFrom(buffer[..], text + [NUL], env)
      invariant AllStored(buffer[..], ptrs, tokens, env)
      decreases |text| - env
    {
      assert buffer[env] == (text + [NUL])[env];
      if IsBlank(buffer[env]) {
        StoredUnchanged(buffer[..], buffer[..], ptrs, tokens, env, env + 1);
        env := env + 1;
      } else if buffer[env] == NUL {
        break;
      } else {
        ptrs := ptrs + [env];
        ghost var start, before := env, buffer[..];
        env, ended := ScanInPlace(buffer, env, text);
        StoredUnchanged(before, buffer[..], ptrs[..|ptrs| - 1], tokens, start, env);
        ghost var token := Scan(text, start, 0, false).token;
        Regroup(tokens, token, Tokens(text, if ended then |text| else env));
        tokens := tokens + [token];
        if ended {
          break;
        }
      }
    }
    assert tokens == Tokens(text, 0);
    forall k | 0 <= k < |ptrs| ensures CString(buffer[..], ptrs[k]) == tokens[k] {
      StoredIsCString(buffer[..], ptrs[k], tokens[k], env);
    }
  }

  /** Splits a copy of the variable's value, unless it is unset or empty. */
  method AppendEnvVar(envVar: string) returns (buffer: array<char>, ptrs: seq<nat>)
    requires NUL !in envVar
    ensures var tokens := Tokens(envVar, 0);
      && |ptrs| == |tokens|
      && forall k :: 0 <= k < |ptrs| ==> ptrs[k] < buffer.Length && CString(buffer[..], ptrs[k]) == tokens[k]
  {
    var copy := envVar + [NUL];
    buffer := new char[|copy|](i requires 0 <= i < |copy| => copy[i]);
    if envVar == "" {
      return buffer, [];
    }
    assert buffer[..buffer.Length - 1] == envVar;
    ptrs := SplitInPlace(buffer);
  }

  /** Tokens stored before `bound` survive changes behind it. */
  lemma StoredUnchanged(a: seq<char>, b: seq<char>, ptrs: seq<nat>, tokens: seq<string>, bound: nat, more: nat)
    requires AllStored(a, ptrs, tokens, bound) && bound <= more <= |b| && SameBefore(a, b, bound)
    ensures AllStored(b, ptrs, tokens, more)
  {}

  lemma {:induction false} StoredIsCString(buffer: seq<char>, i: nat, token: string, bound: nat)
    requires StoredAt(buffer, i, token, bound)
    ensures CString(buffer, i) == token
    decreases |token|
  {
    if token != "" {
      assert buffer[i] == token[0] && token[0] in token;
      StoredIsCString(buffer, i + 1, token[1..], bound);
    }
  }

  // ---------------------------------------------------------------- round trip

  /** The quoted form of an argument behind n backslashes: those before a quote are doubled and the quote
      is escaped; those at the end are doubled, as the closing quote follows. */
  function QuoteBody(arg: string, n: nat): string
    decreases |arg|
  {
    if arg == "" then Slashes(n) + [QUOTE]
    else if arg[0] == BACKSLASH then [BACKSLASH] + QuoteBody(arg[1..], n + 1)
    else if arg[0] == QUOTE then Slashes(n + 1) + ([QUOTE] + QuoteBody(arg[1..], 0))
    else [arg[0]] + QuoteBody(arg[1..], 0)
  }

  function Quoted(arg: string): string {
    [QUOTE] + QuoteBody(arg, 0)
  }

  function JoinQuoted(args: seq<string>): string {
    if args == [] then ""
    else if |args| == 1 then Quoted(args[0])
    else Quoted(args[0]) + ([' '] + JoinQuoted(args[1..]))
  }

  /** A run of k backslashes is held back. */
  lemma {:induction false} ScanSlashes(s: string, i: nat, k: nat, n: nat, quoted: bool)
    requires Written(s, i, Slashes(k))
    ensures Scan(s, i, n, quoted) == Scan(s, i + k, n + k, quoted)
    decreases k
  {
    if k > 0 {
      assert s[i] == Slashes(k)[0];
      ScanSlashes(s, i + 1, k - 1, n + 1, quoted);
    }
  }

  /** The parts of a written word are written one behind the other. */
  lemma WrittenParts(s: string, i: nat, a: string, b: string)
    requires Written(s, i, a + b)
    ensures Written(s, i, a) && Written(s, i + |a|, b)
  {
    forall m | i <= m < i + |a| ensures s[m] == a[m - i] { assert s[m] == (a + b)[m - i]; }
    forall m | i + |a| <= m < i + |a| + |b| ensures s[m] == b[m - i - |a|] { assert s[m] == (a + b)[m - i]; }
  }

  /** Reading a quoted body gives the argument back, behind the backslashes held, and leaves the quotes. */
  lemma {:induction false} ScanBody(s: string, i: nat, arg: string, n: nat, end: nat)
    requires Written(s, i, QuoteBody(arg, n)) && end == i + |QuoteBody(arg, n)|
    ensures Scan(s, i, n, true) == Prefixed(Slashes(n) + arg, Scan(s, end, 0, false))
    decreases |arg|
  {
    if arg == "" {
      WrittenParts(s, i, Slashes(n), [QUOTE]);
      ScanSlashes(s, i, n, n, true);
      assert Slashes(n) + arg == Slashes(n);
    } else {
      var c, more := arg[0], arg[1..];
      var escape := if c == QUOTE then Slashes(n + 1) else "";
      QuoteStep(arg, n);
      ThreeParts(s, i, QuoteBody(arg, n), escape, c, QuoteBody(more, Held(c, n)));
      ScanBody(s, i + |escape| + 1, more, Held(c, n), end);
      ScanEscaped(s, i, c, n, arg, end);
    }
  }

  lemma QuoteStep(arg: string, n: nat)
    requires arg != ""
    ensures QuoteBody(arg, n) ==
      (if arg[0] == QUOTE then Slashes(n + 1) else "") + ([arg[0]] + QuoteBody(arg[1..], Held(arg[0], n)))
  {
  }

  lemma ThreeParts(s: string, i: nat, word: string, a: string, c: char, b: string)
    requires Written(s, i, word) && word == a + ([c] + b)
    ensures Written(s, i, a) && Written(s, i + |a|, [c]) && Written(s, i + |a| + 1, b)
  {
    WrittenParts(s, i, a, [c] + b);
    WrittenParts(s, i + |a|, [c], b);
  }

  lemma ScanEscaped(s: string, i: nat, c: char, n: nat, arg: string, end: nat)
    requires arg != "" && arg[0] == c && end <= |s|
    requires
      var escape := if c == QUOTE then Slashes(n + 1) else "";
      && Written(s, i, escape) && Written(s, i + |escape|, [c])
      && Scan(s, i + |escape| + 1, Held(c, n), true) == Prefixed(Slashes(Held(c, n)) + arg[1..], Scan(s, end, 0, false))
    ensures Scan(s, i, n, true) == Prefixed(Slashes(n) + arg, Scan(s, end, 0, false))
  {
    var r := Scan(s, end, 0, false);
    if c == BACKSLASH {
      assert s[i] == [c][0];
      assert Slashes(n + 1) + arg[1..] == Slashes(n) + arg;
    } else {
      DropSlashes(c, n, arg, r);
      ScanPast(s, i, c, n);
    }
  }

  /** A quote behind its escape, or a character that is neither quote nor backslash, ends the backslashes held. */
  lemma ScanPast(s: string, i: nat, c: char, n: nat)
    requires c != BACKSLASH
    requires
      var escape := if c == QUOTE then Slashes(n + 1) else "";
      Written(s, i, escape) && Written(s, i + |escape|, [c])
    ensures
      var k := if c == QUOTE then n + 1 else 0;
      Scan(s, i, n, true) == Prefixed(Slashes(n) + [c], Scan(s, i + k + 1, 0, true))
  {
    var k := if c == QUOTE then n + 1 else 0;
    assert s[i + k] == [c][0];
    if c == QUOTE {
      ScanSlashes(s, i, n + 1, n, true);
      assert (n + n + 1) / 2 == n && (n + n + 1) % 2 == 1;
    }
  }

  lemma DropSlashes(c: char, n: nat, arg: string, r: Scanned)
    requires arg != "" && arg[0] == c
    ensures Prefixed(Slashes(n) + [c], Prefixed(Slashes(0) + arg[1..], r)) == Prefixed(Slashes(n) + arg, r)
  {
    assert Slashes(0) + arg[1..] == arg[1..];
    PrefixedTwice(Slashes(n) + [c], arg[1..], r);
    assert Slashes(n) + [c] + arg[1..] == Slashes(n) + arg;
  }

  /** Quoting each argument and joining with blanks tokenizes back to exactly the arguments. */
  lemma RoundTrip(args: seq<string>)
    ensures Tokens(JoinQuoted(args), 0) == args
  {
    RoundTripFrom(JoinQuoted(args), 0, args);
  }

  lemma {:induction false} RoundTripFrom(s: string, i: nat, args: seq<string>)
    requires i <= |s| && s[i..] == JoinQuoted(args)
    ensures Tokens(s, i) == args
    decreases |args|
  {
    if args != [] {
      var rest := if |args| == 1 then "" else [' '] + JoinQuoted(args[1..]);
      assert s[i..] == Quoted(args[0]) + rest;
      ScanQuoted(s, i, args[0], rest);
      if |args| == 1 {
        assert args == [args[0]];
      } else {
        var next := Scan(s, i, 0, false).next;
        assert s[next..] == s[i..][next - i..] == JoinQuoted(args[1..]);
        RoundTripFrom(s, next, args[1..]);
        assert args == [args[0]] + args[1..];
      }
    }
  }

  lemma ScanQuoted(s: string, i: nat, arg: string, rest: string)
    requires i <= |s| && s[i..] == Quoted(arg) + rest
    requires rest == "" || rest[0] == ' '
    ensures i < |s| && s[i] == QUOTE
    ensures Scan(s, i, 0, false) == Scanned(arg, if rest == "" then |s| else i + |Quoted(arg)| + 1)
  {
    var body := QuoteBody(arg, 0);
    WrittenSuffix(s, i, [QUOTE] + body, rest);
    WrittenParts(s, i, [QUOTE], body);
    var end := i + 1 + |body|;
    ScanBody(s, i + 1, arg, 0, end);
    assert Scan(s, end, 0, false) == Scanned("", if rest == "" then |s| else end + 1);
    assert Slashes(0) + arg == arg && arg + "" == arg;
    assert Scan(s, i + 1, 0, true) == Scanned(arg, if rest == "" then |s| else end + 1);
    assert Slashes(0) + arg == arg;
  }

  lemma WrittenSuffix(s: string, i: nat, word: string, rest: string)
    requires i <= |s| && s[i..] == word + rest
    ensures Written(s, i, word)
    ensures rest == "" ==> i + |word| == |s|
    ensures rest != "" ==> i + |word| < |s| && s[i + |word|] == rest[0]
  {
    forall m | i <= m < i + |word| ensures s[m] == word[m - i] { assert s[m] == s[i..][m - i]; }
    if rest != "" { assert s[i + |word|] == s[i..][|word|]; }
  }
}
