/** The user's linker and compiler-driver switches on the link command line (`ArgsBuilder::addUserSwitches` in
    driver/linker-gcc.cpp): two lists are merged by command-line position, with two cursors and a sentinel. */
module LinkerSwitches {

  /** The sentinel position of an exhausted list. */
  const UINT_MAX: nat := 0xffff_ffff

  type Pos = p: nat | p <= UINT_MAX

  /** A switch and its position on LDC's command line. */
  datatype Positioned = Positioned(text: string, pos: Pos)

  /** A switch of either list. */
  datatype Switch = Linker(s: Positioned) | Cc(s: Positioned)

  predicate ForDriver(text: string) {
    "-l" <= text || "-L" <= text || "-Wl," <= text || "-shared" <= text || "-static" <= text
  }

  /** What a switch becomes: the driver passes a linker switch on if told so by -Xlinker. */
  function Expand(s: Switch): seq<string> {
    if s.Linker? && !ForDriver(s.s.text) then ["-Xlinker", s.s.text] else [s.s.text]
  }

  function ExpandAll(order: seq<Switch>): seq<string> {
    if order == [] then [] else Expand(order[0]) + ExpandAll(order[1..])
  }

  function HeadPos(list: seq<Positioned>): Pos {
    if list == [] then UINT_MAX else list[0].pos
  }

  /** The order in which the loop takes the switches; it ends as soon as both positions are equal. */
  function Merge(link: seq<Positioned>, cc: seq<Positioned>): seq<Switch>
    decreases |link| + |cc|
  {
    if HeadPos(link) < HeadPos(cc) then [Linker(link[0])] + Merge(link[1..], cc)
    else if HeadPos(cc) < HeadPos(link) then [Cc(cc[0])] + Merge(link, cc[1..])
    else []
  }

  class ArgsBuilder {
    var args: seq<string>

    constructor ()
      ensures args == []
    {
      args := [];
    }

    method AddUserSwitches(linkerSwitches: seq<Positioned>, ccSwitches: seq<Positioned>)
      modifies this
      ensures args == old(args) + ExpandAll(Merge(linkerSwitches, ccSwitches))
    {
      var ilink, icc := 0, 0;
      ghost var whole := args + ExpandAll(Merge(linkerSwitches, ccSwitches));
      while true
        invariant 0 <= ilink <= |linkerSwitches| && 0 <= icc <= |ccSwitches|
        invariant whole == args + ExpandAll(Merge(linkerSwitches[ilink..], ccSwitches[icc..]))
        decreases |linkerSwitches| - ilink + |ccSwitches| - icc
      {
        ghost var link, cc, before := linkerSwitches[ilink..], ccSwitches[icc..], args;
        var linkpos: Pos := if ilink < |linkerSwitches| then linkerSwitches[ilink].pos else UINT_MAX;
        var ccpos: Pos := if icc < |ccSwitches| then ccSwitches[icc].pos else UINT_MAX;
        if linkpos < ccpos {
          var p := linkerSwitches[ilink].text;
          ilink := ilink + 1;
          if !("-l" <= p || "-L" <= p || "-Wl," <= p || "-shared" <= p || "-static" <= p) {
            args := args + ["-Xlinker"];
          }
          args := args + [p];
          TakeOne(before, Linker(link[0]), Merge(link[1..], cc));
          assert link[1..] == linkerSwitches[ilink..];
        } else if ccpos < linkpos {
          args := args + [ccSwitches[icc].text];
          icc := icc + 1;
          TakeOne(before, Cc(cc[0]), Merge(link, cc[1..]));
          assert cc[1..] == ccSwitches[icc..];
        } else {
          break;
        }
      }
    }
  }

  lemma TakeOne(args: seq<string>, s: Switch, rest: seq<Switch>)
    ensures args + ExpandAll([s] + rest) == args + Expand(s) + ExpandAll(rest)
    ensures s.Linker? && !ForDriver(s.s.text) ==> args + Expand(s) == args + ["-Xlinker"] + [s.s.text]
  {
    assert ([s] + rest)[1..] == rest;
  }

  // ---------------------------------------------------------------- what is written for a switch

  /** A switch of the merge is written in its place, as it is; a linker switch gets an -Xlinker in front exactly if it does
      not begin with one of five texts that are the compiler driver's own. */
  lemma {:induction false} WrittenExactly(before: seq<Switch>, s: Switch, behind: seq<Switch>)
    ensures
      var text := s.s.text;
      var own := "-l" <= text || "-L" <= text || "-Wl," <= text || "-shared" <= text || "-static" <= text;
      ExpandAll(before + [s] + behind) ==
        ExpandAll(before) + (if s.Linker? && !own then ["-Xlinker", text] else [text]) + ExpandAll(behind)
    decreases |before|
  {
    if before == [] {
      assert before + [s] + behind == [s] + behind && ([s] + behind)[1..] == behind;
    } else {
      assert before + [s] + behind == [before[0]] + (before[1..] + [s] + behind);
      WrittenExactly(before[1..], s, behind);
      TakeOne([], before[0], before[1..] + [s] + behind);
      Joined(Expand(before[0]), ExpandAll(before[1..]), Expand(s), ExpandAll(behind));
    }
  }

  lemma Joined(first: seq<string>, a: seq<string>, b: seq<string>, c: seq<string>)
    ensures first + (a + b + c) == first + a + b + c && [] + first == first
  {
  }

  /** A single switch is written unless its position is the largest unsigned number. */
  lemma SingleSwitch(s: Positioned)
    ensures Merge([s], []) == if s.pos == 4294967295 then [] else [Linker(s)]
    ensures Merge([], [s]) == if s.pos == 4294967295 then [] else [Cc(s)]
  {
    assert [s][1..] == [];
  }

  // ---------------------------------------------------------------- what the merge is

  function Links(order: seq<Switch>): seq<Positioned> {
    if order == [] then []
    else (if order[0].Linker? then [order[0].s] else []) + Links(order[1..])
  }

  function Ccs(order: seq<Switch>): seq<Positioned> {
    if order == [] then []
    else (if order[0].Cc? then [order[0].s] else []) + Ccs(order[1..])
  }

  ghost predicate Sorted(list: seq<Positioned>) {
    forall i, j :: 0 <= i < j < |list| ==> list[i].pos <= list[j].pos
  }

  ghost predicate InOrder(order: seq<Switch>) {
    forall i, j :: 0 <= i < j < |order| ==> order[i].s.pos <= order[j].s.pos
  }

  ghost predicate BelowSentinel(list: seq<Positioned>) {
    forall s <- list :: s.pos < UINT_MAX
  }

  ghost predicate Disjoint(link: seq<Positioned>, cc: seq<Positioned>) {
    forall a <- link, b <- cc :: a.pos != b.pos
  }

  ghost predicate Complete(link: seq<Positioned>, cc: seq<Positioned>) {
    Links(Merge(link, cc)) == link && Ccs(Merge(link, cc)) == cc
  }

  /** Whatever the positions, each list is taken in its order and from its front, each switch at most once. */
  lemma {:induction false} TakesPrefixes(link: seq<Positioned>, cc: seq<Positioned>)
    ensures Links(Merge(link, cc)) <= link && Ccs(Merge(link, cc)) <= cc
    decreases |link| + |cc|
  {
    if HeadPos(link) < HeadPos(cc) {
      TakesPrefixes(link[1..], cc);
      Head(Linker(link[0]), Merge(link[1..], cc));
      assert link == [link[0]] + link[1..];
    } else if HeadPos(cc) < HeadPos(link) {
      TakesPrefixes(link, cc[1..]);
      Head(Cc(cc[0]), Merge(link, cc[1..]));
      assert cc == [cc[0]] + cc[1..];
    }
  }

  lemma Head(s: Switch, rest: seq<Switch>)
    ensures Links([s] + rest) == (if s.Linker? then [s.s] else []) + Links(rest)
    ensures Ccs([s] + rest) == (if s.Cc? then [s.s] else []) + Ccs(rest)
  {
    assert ([s] + rest)[1..] == rest;
  }

  /** No position is the sentinel, and none occurs in both lists. */
  ghost predicate Mergeable(link: seq<Positioned>, cc: seq<Positioned>) {
    BelowSentinel(link) && BelowSentinel(cc) && Disjoint(link, cc)
  }

  /** For lists in command-line order the loop ends with both exhausted if and only if no position is the sentinel
      and no position occurs in both lists. */
  lemma {:induction false} CompleteExactly(link: seq<Positioned>, cc: seq<Positioned>)
    requires Sorted(link) && Sorted(cc)
    ensures Complete(link, cc) <==> Mergeable(link, cc)
    decreases |link| + |cc|
  {
    if HeadPos(link) < HeadPos(cc) {
      CompleteStep(link, cc);
      LinkFirst(link, cc);
      CompleteExactly(link[1..], cc);
    } else if HeadPos(cc) < HeadPos(link) {
      CompleteStep(link, cc);
      CcFirst(link, cc);
      CompleteExactly(link, cc[1..]);
    } else if link != [] {
      assert link[0] in link && (cc != [] ==> cc[0] in cc);
    } else if cc != [] {
      assert cc[0] in cc;
    }
  }

  lemma CompleteStep(link: seq<Positioned>, cc: seq<Positioned>)
    ensures HeadPos(link) < HeadPos(cc) ==> (Complete(link, cc) <==> Complete(link[1..], cc))
    ensures HeadPos(cc) < HeadPos(link) ==> (Complete(link, cc) <==> Complete(link, cc[1..]))
  {
    if HeadPos(link) < HeadPos(cc) {
      var rest := Merge(link[1..], cc);
      Head(Linker(link[0]), rest);
      Cons(link[0], link[1..], Links(rest));
      assert link == [link[0]] + link[1..];
    } else if HeadPos(cc) < HeadPos(link) {
      var rest := Merge(link, cc[1..]);
      Head(Cc(cc[0]), rest);
      Cons(cc[0], cc[1..], Ccs(rest));
      assert cc == [cc[0]] + cc[1..];
    }
  }

  lemma LinkFirst(link: seq<Positioned>, cc: seq<Positioned>)
    requires Sorted(cc) && HeadPos(link) < HeadPos(cc)
    ensures Mergeable(link, cc) <==> Mergeable(link[1..], cc)
  {
    assert forall a :: a in link <==> a == link[0] || a in link[1..];
    assert forall b <- cc :: link[0].pos != b.pos;
  }

  lemma CcFirst(link: seq<Positioned>, cc: seq<Positioned>)
    requires Sorted(link) && HeadPos(cc) < HeadPos(link)
    ensures Mergeable(link, cc) <==> Mergeable(link, cc[1..])
  {
    assert forall b :: b in cc <==> b == cc[0] || b in cc[1..];
    assert forall a <- link :: cc[0].pos != a.pos;
  }

  lemma Cons<T>(x: T, a: seq<T>, b: seq<T>)
    ensures [x] + a == [x] + b <==> a == b
  {
    if [x] + a == [x] + b {
      assert a == ([x] + a)[1..] == ([x] + b)[1..] == b;
    }
  }

  /** The switches come in the order of their positions. */
  lemma {:induction false} MergeInOrder(link: seq<Positioned>, cc: seq<Positioned>)
    requires Sorted(link) && Sorted(cc)
    ensures InOrder(Merge(link, cc))
    ensures forall s <- Merge(link, cc) :: (s.Linker? && s.s in link) || (s.Cc? && s.s in cc)
    decreases |link| + |cc|
  {
    if HeadPos(link) < HeadPos(cc) {
      MergeInOrder(link[1..], cc);
      FrontIsLeast(link, cc, Linker(link[0]), Merge(link[1..], cc));
    } else if HeadPos(cc) < HeadPos(link) {
      MergeInOrder(link, cc[1..]);
      FrontIsLeast(link, cc, Cc(cc[0]), Merge(link, cc[1..]));
    }
  }

  lemma FrontIsLeast(link: seq<Positioned>, cc: seq<Positioned>, s: Switch, rest: seq<Switch>)
    requires Sorted(link) && Sorted(cc) && InOrder(rest)
    requires forall r <- rest :: (r.Linker? && r.s in link) || (r.Cc? && r.s in cc)
    requires s.s.pos <= HeadPos(link) && s.s.pos <= HeadPos(cc)
    ensures InOrder([s] + rest)
  {
    forall j | 0 <= j < |rest| ensures s.s.pos <= rest[j].s.pos {
      assert rest[j] in rest;
    }
  }

  /** There is only one such order: an interleaving of lists without common positions is determined by being in
      position order. So in the complete case the merge is that order. */
  lemma {:induction false} OnlyOrder(order: seq<Switch>)
    requires InOrder(order) && Mergeable(Links(order), Ccs(order))
    ensures order == Merge(Links(order), Ccs(order))
    decreases |order|
  {
    if order != [] {
      FirstIsLeast(order);
      Rest(order);
      OnlyOrder(order[1..]);
      MergeStep(order, Links(order), Ccs(order));
    }
  }

  lemma MergeTakesLink(link: seq<Positioned>, cc: seq<Positioned>)
    requires HeadPos(link) < HeadPos(cc)
    ensures Merge(link, cc) == [Linker(link[0])] + Merge(link[1..], cc)
  {
  }

  lemma MergeTakesCc(link: seq<Positioned>, cc: seq<Positioned>)
    requires HeadPos(cc) < HeadPos(link)
    ensures Merge(link, cc) == [Cc(cc[0])] + Merge(link, cc[1..])
  {
  }

  lemma MergeStep(order: seq<Switch>, link: seq<Positioned>, cc: seq<Positioned>)
    requires order != [] && link == Links(order) && cc == Ccs(order)
    requires if order[0].Linker? then HeadPos(link) < HeadPos(cc) else HeadPos(cc) < HeadPos(link)
    requires order[1..] == Merge(Links(order[1..]), Ccs(order[1..]))
    ensures order == Merge(link, cc)
  {
    assert order == [order[0]] + order[1..];
    Tails(order);
    if order[0].Linker? {
      MergeTakesLink(link, cc);
    } else {
      MergeTakesCc(link, cc);
    }
  }

  lemma Tails(order: seq<Switch>)
    requires order != []
    ensures order[0].Linker? ==>
      (Links(order) != [] && Links(order)[0] == order[0].s && Links(order)[1..] == Links(order[1..]) &&
       Ccs(order) == Ccs(order[1..]))
    ensures order[0].Cc? ==>
      (Ccs(order) != [] && Ccs(order)[0] == order[0].s && Ccs(order)[1..] == Ccs(order[1..]) &&
       Links(order) == Links(order[1..]))
  {
  }

  lemma Rest(order: seq<Switch>)
    requires order != [] && InOrder(order) && Mergeable(Links(order), Ccs(order))
    ensures InOrder(order[1..]) && Mergeable(Links(order[1..]), Ccs(order[1..]))
  {
    assert forall a <- Links(order[1..]) :: a in Links(order);
    assert forall b <- Ccs(order[1..]) :: b in Ccs(order);
  }

  /** The first switch has the strictly smaller head position. */
  lemma FirstIsLeast(order: seq<Switch>)
    requires order != [] && InOrder(order) && Mergeable(Links(order), Ccs(order))
    ensures
      var link, cc := Links(order), Ccs(order);
      if order[0].Linker? then HeadPos(link) < HeadPos(cc) && link[0] == order[0].s
      else HeadPos(cc) < HeadPos(link) && cc[0] == order[0].s
  {
    var link, cc := Links(order), Ccs(order);
    Members(order);
    if link != [] { assert link[0] in link; }
    if cc != [] { assert cc[0] in cc; }
  }

  /** Every switch of the two lists stands somewhere in the interleaving. */
  lemma {:induction false} Members(order: seq<Switch>)
    ensures forall a <- Links(order) :: exists i :: 0 <= i < |order| && order[i] == Linker(a)
    ensures forall b <- Ccs(order) :: exists i :: 0 <= i < |order| && order[i] == Cc(b)
    decreases |order|
  {
    if order != [] {
      Members(order[1..]);
      forall a | a in Links(order) ensures exists i :: 0 <= i < |order| && order[i] == Linker(a) {
        if order[0] != Linker(a) {
          var i :| 0 <= i < |order[1..]| && order[1..][i] == Linker(a);
          assert order[i + 1] == Linker(a);
        }
      }
      forall b | b in Ccs(order) ensures exists i :: 0 <= i < |order| && order[i] == Cc(b) {
        if order[0] != Cc(b) {
          var i :| 0 <= i < |order[1..]| && order[1..][i] == Cc(b);
          assert order[i + 1] == Cc(b);
        }
      }
    }
  }
}
