/** What DFLAGS is split into, stated on the text itself: words of plain characters, backslashes and quoted parts, with any
    runs of spaces and tabs between them. */
module EnvWords {

  import opened Common
  import opened EnvTokenizer

  /** A part of a word that ends in something other than a backslash:
      characters that are no blank and no quote, the last of them no backslash;
      k pairs of backslashes, one more, and a quote, for k backslashes and a quote;
      k pairs of backslashes and a quoted argument, for k backslashes and the argument. */
  datatype Part = Bare(s: string) | Literal(k: nat) | Quote(k: nat, arg: string)

  /** A word: its parts, and at the end characters that are no blank and no quote. */
  datatype Word = Tail(s: string) | Front(part: Part, rest: Word)

  /** A text: words, each behind its blanks, and the blanks at the end. */
  datatype Line = End(blanks: string) | Then(blanks: string, word: Word, rest: Line)

  predicate Unquoted(s: string) {
    ' ' !in s && '\t' !in s && '"' !in s
  }

  predicate PartOk(part: Part) {
    part.Bare? ==> part.s != "" && Unquoted(part.s) && part.s[|part.s| - 1] != '\\'
  }

  predicate PartsOk(w: Word) {
    match w
    case Tail(s) => Unquoted(s)
    case Front(part, rest) => PartOk(part) && PartsOk(rest)
  }

  predicate WordOk(w: Word) {
    PartsOk(w) && w != Tail("")
  }

  predicate Blanks(s: string) {
    forall k :: 0 <= k < |s| ==> s[k] == ' ' || s[k] == '\t'
  }

  /** How a part is written. */
  function PartText(part: Part): string {
    match part
    case Bare(s) => s
    case Literal(k) => Slashes(2 * k + 1) + ['"']
    case Quote(k, arg) => Slashes(2 * k) + Quoted(arg)
  }

  /** What it stands for. */
  function PartMeans(part: Part): string {
    match part
    case Bare(s) => s
    case Literal(k) => Slashes(k) + ['"']
    case Quote(k, arg) => Slashes(k) + arg
  }

  function WordText(w: Word): string {
    match w
    case Tail(s) => s
    case Front(part, rest) => PartText(part) + WordText(rest)
  }

  function WordMeans(w: Word): string {
    match w
    case Tail(s) => s
    case Front(part, rest) => PartMeans(part) + WordMeans(rest)
  }

  function Text(line: Line): string {
    match line
    case End(blanks) => blanks
    case Then(blanks, word, rest) => blanks + (WordText(word) + Text(rest))
  }

  function Meanings(line: Line): seq<string> {
    match line
    case End(_) => []
    case Then(_, word, rest) => [WordMeans(word)] + Meanings(rest)
  }

  /** Any runs of spaces and tabs, between two words not empty. */
  predicate LineOk(line: Line) {
    && Blanks(line.blanks)
    && (line.Then? ==>
      && WordOk(line.word) && LineOk(line.rest)
      && (line.rest.Then? ==> line.rest.blanks != ""))
  }

  // ---------------------------------------------------------------- one word

  lemma Rest(s: string, i: nat, w: string)
    requires Written(s, i, w) && w != ""
    ensures i < |s| && s[i] == w[0] && w[0] in w && Written(s, i + 1, w[1..])
    ensures Unquoted(w) ==> Unquoted(w[1..])
    ensures Blanks(w) ==> Blanks(w[1..])
  {
    forall m | i + 1 <= m < i + |w| ensures s[m] == w[1..][m - (i + 1)] { assert s[m] == w[m - i]; }
  }

  /** Characters that are no blank and no quote, the last one no backslash, stand for themselves. */
  lemma {:induction false} ScanBare(s: string, i: nat, w: string, n: nat)
    requires Written(s, i, w) && w != "" && Unquoted(w) && w[|w| - 1] != '\\'
    ensures Scan(s, i, n, false) == Prefixed(Slashes(n) + w, Scan(s, i + |w|, 0, false))
    decreases |w|
  {
    Rest(s, i, w);
    if |w| == 1 {
      assert [w[0]] == w;
    } else if w[0] == '\\' {
      ScanBare(s, i + 1, w[1..], n + 1);
      HeldBack(n, w);
    } else {
      ScanBare(s, i + 1, w[1..], 0);
      Behind(n, w, Scan(s, i + |w|, 0, false));
    }
  }

  lemma HeldBack(n: nat, w: string)
    requires w != "" && w[0] == '\\'
    ensures Slashes(n + 1) + w[1..] == Slashes(n) + w
  {
  }

  lemma Behind(n: nat, w: string, rest: Scanned)
    requires w != ""
    ensures Prefixed(Slashes(n) + [w[0]], Prefixed(Slashes(0) + w[1..], rest)) == Prefixed(Slashes(n) + w, rest)
  {
    assert Slashes(n) + [w[0]] + (Slashes(0) + w[1..]) == Slashes(n) + w;
    PrefixedTwice(Slashes(n) + [w[0]], Slashes(0) + w[1..], rest);
  }

  /** At the end of a word all backslashes stand for themselves. */
  lemma {:induction false} ScanTail(s: string, i: nat, w: string, n: nat)
    requires Written(s, i, w) && Unquoted(w)
    requires i + |w| < |s| ==> s[i + |w|] == ' ' || s[i + |w|] == '\t'
    ensures Scan(s, i, n, false) == Scanned(Slashes(n) + w, if i + |w| < |s| then i + |w| + 1 else |s|)
    decreases |w|
  {
    if w == "" {
      assert Slashes(n) + w == Slashes(n);
    } else {
      Rest(s, i, w);
      if w[0] == '\\' {
        ScanTail(s, i + 1, w[1..], n + 1);
        assert Slashes(n + 1) + w[1..] == Slashes(n) + w;
      } else {
        ScanTail(s, i + 1, w[1..], 0);
        assert Slashes(n) + [w[0]] + (Slashes(0) + w[1..]) == Slashes(n) + w;
      }
    }
  }

  /** Outside quotes, scanning over the text at i puts what it stands for in front of the rest. */
  ghost predicate Reads(s: string, i: nat, text: string, means: string) {
    && i + |text| <= |s|
    && Scan(s, i, 0, false) == Prefixed(means, Scan(s, i + |text|, 0, false))
  }

  /** Up to index `end`, where the text ends or has a blank, the token stands. */
  ghost predicate Ends(s: string, i: nat, end: nat, token: string) {
    && i <= end <= |s|
    && Scan(s, i, 0, false) == Scanned(token, if end < |s| then end + 1 else |s|)
  }

  lemma ReadsThenEnds(s: string, i: nat, text: string, means: string, end: nat, token: string)
    requires Reads(s, i, text, means) && Ends(s, i + |text|, end, token)
    ensures Ends(s, i, end, means + token)
  {
  }

  lemma ReadsSlashes(s: string, i: nat, k: nat, c: string)
    requires Written(s, i, Slashes(2 * k) + c) && c != "" && c[0] == '"'
    ensures Scan(s, i, 0, false) == Prefixed(Slashes(k), Scan(s, i + 2 * k + 1, 0, true))
  {
    WrittenParts(s, i, Slashes(2 * k), c);
    ScanSlashes(s, i, 2 * k, 0, false);
    assert s[i + 2 * k] == c[0];
  }

  lemma ReadsLiteral(s: string, i: nat, k: nat)
    requires Written(s, i, Slashes(2 * k + 1) + ['"'])
    ensures Reads(s, i, Slashes(2 * k + 1) + ['"'], Slashes(k) + ['"'])
  {
    WrittenParts(s, i, Slashes(2 * k + 1), ['"']);
    ScanSlashes(s, i, 2 * k + 1, 0, false);
    assert s[i + 2 * k + 1] == ['"'][0];
  }

  lemma ReadsBody(s: string, i: nat, arg: string)
    requires Written(s, i, QuoteBody(arg, 0))
    ensures Scan(s, i, 0, true) == Prefixed(arg, Scan(s, i + |QuoteBody(arg, 0)|, 0, false))
  {
    ScanBody(s, i, arg, 0, i + |QuoteBody(arg, 0)|);
    assert Slashes(0) + arg == arg;
  }

  lemma ReadsQuote(s: string, i: nat, k: nat, arg: string)
    requires Written(s, i, Slashes(2 * k) + Quoted(arg))
    ensures Reads(s, i, Slashes(2 * k) + Quoted(arg), Slashes(k) + arg)
  {
    ReadsSlashes(s, i, k, Quoted(arg));
    WrittenParts(s, i, Slashes(2 * k), Quoted(arg));
    WrittenParts(s, i + 2 * k, ['"'], QuoteBody(arg, 0));
    ReadsBody(s, i + 2 * k + 1, arg);
    PrefixedTwice(Slashes(k), arg, Scan(s, i + 2 * k + |Quoted(arg)|, 0, false));
  }

  lemma ReadsBare(s: string, i: nat, w: string)
    requires Written(s, i, w) && PartOk(Bare(w))
    ensures Reads(s, i, w, w)
  {
    ScanBare(s, i, w, 0);
    assert Slashes(0) + w == w;
  }

  lemma ReadsPart(s: string, i: nat, part: Part)
    requires Written(s, i, PartText(part)) && PartOk(part)
    ensures Reads(s, i, PartText(part), PartMeans(part))
  {
    match part
    case Bare(w) => ReadsBare(s, i, w);
    case Literal(k) => ReadsLiteral(s, i, k);
    case Quote(k, arg) => ReadsQuote(s, i, k, arg);
  }

  lemma ReadsTail(s: string, i: nat, tail: string)
    requires Written(s, i, tail) && Unquoted(tail)
    requires
      var end := i + |tail|;
      end < |s| ==> s[end] == ' ' || s[end] == '\t'
    ensures Ends(s, i, i + |tail|, tail)
  {
    ScanTail(s, i, tail, 0);
    assert Slashes(0) + tail == tail;
  }

  lemma ReadsPartAnd(s: string, i: nat, part: Part, end: nat, token: string)
    requires Written(s, i, PartText(part)) && PartOk(part) && Ends(s, i + |PartText(part)|, end, token)
    ensures Ends(s, i, end, PartMeans(part) + token)
  {
    ReadsPart(s, i, part);
    ReadsThenEnds(s, i, PartText(part), PartMeans(part), end, token);
  }

  lemma {:induction false} ScanWord(s: string, i: nat, w: Word)
    requires Written(s, i, WordText(w)) && PartsOk(w)
    requires
      var end := i + |WordText(w)|;
      end < |s| ==> s[end] == ' ' || s[end] == '\t'
    ensures Ends(s, i, i + |WordText(w)|, WordMeans(w))
    decreases w
  {
    match w
    case Tail(t) => ReadsTail(s, i, t);
    case Front(part, rest) =>
      WrittenParts(s, i, PartText(part), WordText(rest));
      ScanWord(s, i + |PartText(part)|, rest);
      ReadsPartAnd(s, i, part, i + |WordText(w)|, WordMeans(rest));
  }

  /** A word does not begin with a blank. */
  lemma WordBegins(w: Word)
    requires WordOk(w)
    ensures WordText(w) != "" && WordText(w)[0] != ' ' && WordText(w)[0] != '\t'
  {
    if w.Front? {
      PartBegins(w.part);
    } else {
      assert w.s[0] in w.s;
    }
  }

  lemma PartBegins(part: Part)
    requires PartOk(part)
    ensures PartText(part) != "" && PartText(part)[0] != ' ' && PartText(part)[0] != '\t'
  {
    if part.Bare? {
      assert part.s[0] in part.s;
    }
  }

  // ---------------------------------------------------------------- the whole text

  /** Scanning depends on the text from the position on alone. */
  lemma {:induction false} ScanShift(a: string, b: string, i: nat, n: nat, quoted: bool)
    requires i <= |b|
    ensures
      var r := Scan(b, i, n, quoted);
      Scan(a + b, |a| + i, n, quoted) == Scanned(r.token, |a| + r.next)
    decreases |b| - i
  {
    if i < |b| {
      assert (a + b)[|a| + i] == b[i];
      if b[i] == '\\' {
        ScanShift(a, b, i + 1, n + 1, quoted);
      } else {
        ScanShift(a, b, i + 1, 0, quoted);
        ScanShift(a, b, i + 1, 0, !quoted);
      }
    }
  }

  lemma {:induction false} TokensShift(a: string, b: string, i: nat)
    requires i <= |b|
    ensures Tokens(a + b, |a| + i) == Tokens(b, i)
    decreases |b| - i
  {
    if i < |b| {
      assert (a + b)[|a| + i] == b[i];
      if b[i] == ' ' || b[i] == '\t' {
        TokensShift(a, b, i + 1);
      } else {
        ScanShift(a, b, i, 0, false);
        TokensShift(a, b, Scan(b, i, 0, false).next);
      }
    }
  }

  /** Blanks in front of a token are skipped. */
  lemma {:induction false} BlanksThen(blanks: string, rest: string)
    requires Blanks(blanks)
    ensures Tokens(blanks + rest, 0) == Tokens(rest, 0)
    decreases |blanks|
  {
    if blanks == "" {
      assert blanks + rest == rest;
    } else {
      BlanksThen(blanks[1..], rest);
      assert blanks + rest == [blanks[0]] + (blanks[1..] + rest);
      TokensShift([blanks[0]], blanks[1..] + rest, 0);
    }
  }

  ghost predicate BlankFirst(rest: string) {
    rest == "" || rest[0] == ' ' || rest[0] == '\t'
  }

  /** The tokens behind a word whose blank is dropped with it. */
  function Further(rest: string): seq<string> {
    if rest == "" then [] else Tokens(rest[1..], 0)
  }

  /** A scanned word is one token, and the tokens go on behind the blank that ends it. */
  lemma TokenThen(text: string, rest: string, token: string)
    requires Ends(text + rest, 0, |text|, token) && text != "" && text[0] != ' ' && text[0] != '\t'
    ensures Tokens(text + rest, 0) == [token] + Further(rest)
  {
    if rest != "" {
      assert text + rest == (text + [rest[0]]) + rest[1..];
      TokensShift(text + [rest[0]], rest[1..], 0);
    }
  }

  lemma WordThen(w: Word, rest: string)
    requires WordOk(w) && BlankFirst(rest)
    ensures Tokens(WordText(w) + rest, 0) == [WordMeans(w)] + Further(rest)
  {
    WordBegins(w);
    ScanWord(WordText(w) + rest, 0, w);
    TokenThen(WordText(w), rest, WordMeans(w));
  }

  /** The text without its first blank. */
  function Shortened(line: Line): Line
    requires line.blanks != ""
  {
    line.(blanks := line.blanks[1..])
  }

  lemma DropBlank(line: Line)
    requires LineOk(line) && line.blanks != ""
    ensures LineOk(Shortened(line)) && Meanings(Shortened(line)) == Meanings(line)
    ensures Text(line) == [line.blanks[0]] + Text(Shortened(line))
    ensures line.blanks[0] == ' ' || line.blanks[0] == '\t'
  {
    assert line.blanks == [line.blanks[0]] + line.blanks[1..];
    if line.Then? {
      Assoc([line.blanks[0]], line.blanks[1..], WordText(line.word) + Text(line.rest));
    }
  }

  /** What stands behind a word: nothing at all, or a blank in front of the rest. */
  lemma RestText(line: Line)
    requires LineOk(line) && (line.Then? ==> line.blanks != "")
    ensures BlankFirst(Text(line))
    ensures Text(line) == "" ==> Meanings(line) == []
    ensures Text(line) != "" ==> line.blanks != "" && Text(line)[1..] == Text(Shortened(line))
  {
    if line.blanks != "" {
      DropBlank(line);
    }
  }

  /** Words with any runs of spaces and tabs between them and around them are split into exactly what they stand for. */
  lemma {:induction false} Split(line: Line)
    requires LineOk(line)
    ensures Tokens(Text(line), 0) == Meanings(line)
    decreases |Text(line)|
  {
    if line.End? {
      assert line.blanks + "" == line.blanks;
      BlanksThen(line.blanks, "");
    } else {
      var rest := Text(line.rest);
      BlanksThen(line.blanks, WordText(line.word) + rest);
      RestText(line.rest);
      WordThen(line.word, rest);
      if rest != "" {
        DropBlank(line.rest);
        Split(Shortened(line.rest));
      }
    }
  }

  // ---------------------------------------------------------------- plain words

  /** The words, each behind its blanks, and the blanks at the end. */
  function Spaced(words: seq<string>, blanks: seq<string>): string
    requires |blanks| == |words| + 1
  {
    if words == [] then blanks[0] else blanks[0] + (words[0] + Spaced(words[1..], blanks[1..]))
  }

  function AsLine(words: seq<string>, blanks: seq<string>): Line
    requires |blanks| == |words| + 1
  {
    if words == [] then End(blanks[0]) else Then(blanks[0], Tail(words[0]), AsLine(words[1..], blanks[1..]))
  }

  ghost predicate Plain(words: seq<string>, blanks: seq<string>) {
    && |blanks| == |words| + 1
    && (forall k :: 0 <= k < |words| ==> words[k] != "" && Unquoted(words[k]))
    && (forall k :: 0 <= k < |blanks| ==> Blanks(blanks[k]))
    && (forall k :: 0 < k < |words| ==> blanks[k] != "")
  }

  lemma {:induction false} PlainLine(words: seq<string>, blanks: seq<string>)
    requires |blanks| == |words| + 1
    ensures Text(AsLine(words, blanks)) == Spaced(words, blanks) && Meanings(AsLine(words, blanks)) == words
    decreases |words|
  {
    if words != [] {
      PlainLine(words[1..], blanks[1..]);
      assert words == [words[0]] + words[1..];
    }
  }

  lemma PlainRest(words: seq<string>, blanks: seq<string>)
    requires Plain(words, blanks) && words != []
    ensures Plain(words[1..], blanks[1..]) && (|words| > 1 ==> blanks[1] != "")
  {
  }

  lemma {:induction false} PlainOk(words: seq<string>, blanks: seq<string>)
    requires Plain(words, blanks)
    ensures LineOk(AsLine(words, blanks))
    decreases |words|
  {
    if words != [] {
      PlainRest(words, blanks);
      PlainOk(words[1..], blanks[1..]);
    }
  }

  /** Nonempty words without blanks and quotes are the tokens, backslashes included, whatever runs of spaces and tabs
      stand between them and around them. */
  lemma PlainWordsSplit(words: seq<string>, blanks: seq<string>)
    requires |blanks| == |words| + 1
    requires forall k :: 0 <= k < |words| ==> words[k] != "" && ' ' !in words[k] && '\t' !in words[k] && '"' !in words[k]
    requires forall k :: 0 <= k < |blanks| ==> forall m :: 0 <= m < |blanks[k]| ==> blanks[k][m] == ' ' || blanks[k][m] == '\t'
    requires forall k :: 0 < k < |words| ==> blanks[k] != ""
    ensures Tokens(Spaced(words, blanks), 0) == words
  {
    PlainLine(words, blanks);
    PlainOk(words, blanks);
    Split(AsLine(words, blanks));
  }

  /** One word alone. */
  lemma OneWord(w: Word)
    requires WordOk(w)
    ensures Tokens(WordText(w), 0) == [WordMeans(w)]
  {
    var line := Then("", w, End(""));
    assert Text(line) == WordText(w);
    assert Meanings(line) == [WordMeans(w)];
    Split(line);
  }

  /** A quoted part may stand inside a word, with any blanks in it: the quotes are dropped, and what is around it stays. */
  lemma QuotedInside(front: string, inner: string, tail: string)
    requires Unquoted(front) && Unquoted(tail) && (front != "" ==> front[|front| - 1] != '\\')
    requires '"' !in inner && '\\' !in inner
    ensures Tokens(front + (['"'] + inner + ['"']) + tail, 0) == [front + inner + tail]
  {
    QuotedPlain(inner);
    var quote := Front(Quote(0, inner), Tail(tail));
    QuoteText(inner, tail);
    if front == "" {
      assert front + (['"'] + inner + ['"']) + tail == WordText(quote) && front + inner + tail == WordMeans(quote);
      OneWord(quote);
    } else {
      Assoc(front, ['"'] + inner + ['"'], tail);
      Assoc(front, inner, tail);
      OneWord(Front(Bare(front), quote));
    }
  }

  lemma QuoteText(inner: string, tail: string)
    ensures WordText(Front(Quote(0, inner), Tail(tail))) == Quoted(inner) + tail
    ensures WordMeans(Front(Quote(0, inner), Tail(tail))) == inner + tail
  {
    assert Slashes(0) + Quoted(inner) == Quoted(inner) && Slashes(0) + inner == inner;
  }

  lemma QuotedPlain(arg: string)
    requires '"' !in arg && '\\' !in arg
    ensures Quoted(arg) == ['"'] + arg + ['"']
  {
    BodyPlain(arg);
    Assoc(['"'], arg, ['"']);
  }

  lemma {:induction false} BodyPlain(arg: string)
    requires '"' !in arg && '\\' !in arg
    ensures QuoteBody(arg, 0) == arg + ['"']
    decreases |arg|
  {
    if arg == "" {
      assert Slashes(0) + ['"'] == arg + ['"'];
    } else {
      BodyPlain(arg[1..]);
      assert [arg[0]] + (arg[1..] + ['"']) == arg + ['"'];
    }
  }

  /** A backslash in front of a quote makes it a character, and two of them stand for one. */
  lemma EscapedQuote(k: nat, tail: string)
    requires Unquoted(tail)
    ensures Tokens(Slashes(2 * k + 1) + ['"'] + tail, 0) == [Slashes(k) + ['"'] + tail]
  {
    OneWord(Front(Literal(k), Tail(tail)));
  }

  /** Without the closing quote the token goes on to the end of the text. */
  lemma {:induction false} ScanUnclosed(s: string, i: nat, n: nat)
    requires i <= |s| && forall k :: i <= k < |s| ==> s[k] != '"'
    ensures Scan(s, i, n, true) == Scanned(Slashes(n) + s[i..], |s|)
    decreases |s| - i
  {
    if i == |s| {
      assert Slashes(n) + s[i..] == Slashes(n);
    } else if s[i] == '\\' {
      ScanUnclosed(s, i + 1, n + 1);
      assert Slashes(n + 1) + s[i + 1..] == Slashes(n) + s[i..];
    } else {
      ScanUnclosed(s, i + 1, 0);
      assert Slashes(n) + [s[i]] + (Slashes(0) + s[i + 1..]) == Slashes(n) + s[i..];
    }
  }

  lemma Unclosed(arg: string)
    requires '"' !in arg
    ensures Tokens(['"'] + arg, 0) == [arg]
  {
    var s := ['"'] + arg;
    assert forall k :: 1 <= k < |s| ==> s[k] == arg[k - 1];
    ScanUnclosed(s, 1, 0);
    assert Slashes(0) + (Slashes(0) + s[1..]) == arg;
  }
}
