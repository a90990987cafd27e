/** Concrete runs of the cache protocol: retrievals, and runs in which a promise is broken. */
module CacheWitnesses {

  import opened CacheLeads
  import opened CacheProtocol
  import opened CacheRuns
  import opened Common

  /** The empty cache, and no output files. */
  const EMPTY := State(map[], map[], map[], map[], 0, map[], map[], [])

  /** One process stores the object of h from output a, and another retrieves it by link to output b. */
  function Shared(obj: Compiler, h: Hash, a: Path, b: Path, mode: Mode): State {
    State(map[h := 1], map[], map[a := File(0), b := if mode.HardLink? then File(1) else Link(h)],
          map[0 := obj(h), 1 := obj(h)], 2, map[1 := h], map[a := 0, b := 1], [Proc(h, a, Copy, true, Done), Proc(h, b, mode, true, Done)])
  }

  /** The object of h, compiled to output a and stored. */
  function Stored(obj: Compiler, h: Hash, a: Path): State {
    State(map[h := 1], map[], map[a := File(0)], map[0 := obj(h), 1 := obj(h)], 2, map[1 := h], map[a := 0],
          [Proc(h, a, Copy, true, Done)])
  }

  /** The object of h, compiled to output a but not yet stored. */
  function OneCompiled(obj: Compiler, h: Hash, a: Path): State {
    State(map[], map[], map[a := File(0)], map[0 := obj(h)], 1, map[], map[a := 0], [Proc(h, a, Copy, true, Compiled)])
  }

  lemma BeginsEmpty(obj: Compiler, h: Hash, a: Path)
    ensures Leads(obj, EMPTY, EMPTY.(procs := [Proc(h, a, Copy, true, Start)]))
  {
    Begins(obj, EMPTY, h, a, Copy);
    assert Begun(EMPTY, h, a, Copy) == EMPTY.(procs := [Proc(h, a, Copy, true, Start)]);
  }

  lemma CompiledReachable(obj: Compiler, h: Hash, a: Path)
    ensures Leads(obj, EMPTY, OneCompiled(obj, h, a))
  {
    var s1 := EMPTY.(procs := [Proc(h, a, Copy, true, Start)]);
    BeginsEmpty(obj, h, a);
    CompileAlone(obj, s1, 0);
    assert WithPc(s1.(outputs := map[a := File(0)], data := map[0 := obj(h)], next := 1, maker := map[a := 0]), 0, Compiled)
        == OneCompiled(obj, h, a);
    Then(obj, EMPTY, s1, OneCompiled(obj, h, a));
  }

  lemma FromEmpty(obj: Compiler, s: State)
    requires Leads(obj, EMPTY, s)
    ensures Reachable(obj, s)
  {
    assert Initial(EMPTY);
    var run :| DisciplinedRun(obj, EMPTY, run) && Exec(obj, EMPTY, run) == Some(s);
  }

  lemma StoredReachable(obj: Compiler, h: Hash, a: Path)
    ensures Reachable(obj, Stored(obj, h, a))
  {
    var s2 := OneCompiled(obj, h, a);
    CompiledReachable(obj, h, a);
    StoreAlone(obj, s2, 0, "t", 0);
    assert WithPc(WithEntry(s2, h, obj(h)), 0, Done) == Stored(obj, h, a);
    Then(obj, EMPTY, s2, Stored(obj, h, a));
    FromEmpty(obj, Stored(obj, h, a));
  }

  // ---------------------------------------------------------------- retrieval

  /** One more process has retrieved the entry of h by link. */
  function WithRetrieved(s: State, h: Hash, b: Path, mode: Mode): State
    requires h in s.entries
  {
    s.(procs := s.procs + [Proc(h, b, mode, true, Done)], outputs := s.outputs[b := NodeFor(s, h, mode)],
       maker := s.maker[b := |s.procs|])
  }

  /** An output may be retrieved by link whatever is there, unless another process is still going to read it: the old one
      is deleted first. */
  lemma Retrieved(obj: Compiler, s: State, h: Hash, b: Path, mode: Mode)
    requires Reachable(obj, s) && h in s.entries && mode != Copy && forall q <- s.procs :: q.out == b ==> !NeedsOutput(q.pc)
    ensures Reachable(obj, WithRetrieved(s, h, b, mode))
  {
    var p, s1 := |s.procs|, Begun(s, h, b, mode);
    Begins(obj, s, h, b, mode);
    NewFree(Removed(s, b), Proc(h, b, mode, true, Start));
    LinkAlone(obj, s1, p);
    LinkedBegun(s, s1, p, h, b, mode);
    Then(obj, s, s1, WithRetrieved(s, h, b, mode));
    Extend(obj, s, WithRetrieved(s, h, b, mode));
  }

  lemma LinkedBegun(s: State, s1: State, p: nat, h: Hash, b: Path, mode: Mode)
    requires s1 == Begun(s, h, b, mode) && p == |s.procs| && h in s.entries
    ensures WithPc(Bound(s1, p, NodeFor(s1, h, mode)), p, Done) == WithRetrieved(s, h, b, mode)
  {
    assert s1.procs[p := Proc(h, b, mode, true, Done)] == s.procs + [Proc(h, b, mode, true, Done)];
    assert (s.outputs - {b})[b := NodeFor(s, h, mode)] == s.outputs[b := NodeFor(s, h, mode)];
    assert (s.maker - {b})[b := p] == s.maker[b := p];
  }

  lemma SharedReachable(obj: Compiler, h: Hash, a: Path, b: Path, mode: Mode)
    requires a != b && mode != Copy
    ensures Reachable(obj, Shared(obj, h, a, b, mode))
  {
    var s := Stored(obj, h, a);
    StoredReachable(obj, h, a);
    Retrieved(obj, s, h, b, mode);
    assert WithRetrieved(s, h, b, mode) == Shared(obj, h, a, b, mode);
  }

  /** So the same output may be retrieved again, by the same or another kind of link; every event is disciplined. */
  lemma RetrievedAgain(obj: Compiler, h: Hash, a: Path, b: Path, mode: Mode, mode2: Mode)
    requires a != b && mode != Copy && mode2 != Copy
    ensures Reachable(obj, WithRetrieved(Shared(obj, h, a, b, mode), h, b, mode2))
  {
    SharedReachable(obj, h, a, b, mode);
    Retrieved(obj, Shared(obj, h, a, b, mode), h, b, mode2);
  }

  /** One more process has retrieved the entry of h by copy, to a file of its own. */
  function WithCopied(s: State, h: Hash, b: Path): State
    requires h in s.entries
  {
    s.(procs := s.procs + [Proc(h, b, Copy, true, Done)], outputs := s.outputs[b := File(s.next)],
       data := s.data[s.next := Content(s, s.entries[h])], next := s.next + 1, maker := s.maker[b := |s.procs|])
  }

  lemma RetrievedByCopy(obj: Compiler, s: State, h: Hash, b: Path)
    requires Reachable(obj, s) && h in s.entries && forall q <- s.procs :: q.out == b ==> !NeedsOutput(q.pc)
    ensures Reachable(obj, WithCopied(s, h, b)) && ReadOutput(WithCopied(s, h, b), b) == Some(obj(h))
  {
    EntryFile(obj, s, h);
    CopiedByOne(obj, s, h, b);
    Extend(obj, s, WithCopied(s, h, b));
  }

  lemma EntryFile(obj: Compiler, s: State, h: Hash)
    requires Reachable(obj, s) && h in s.entries
    ensures s.entries[h] < s.next && Content(s, s.entries[h]) == obj(h)
  {
    ReachableOk(obj, s);
  }

  lemma CopiedByOne(obj: Compiler, s: State, h: Hash, b: Path)
    requires h in s.entries && s.entries[h] < s.next && forall q <- s.procs :: q.out == b ==> !NeedsOutput(q.pc)
    ensures Leads(obj, s, WithCopied(s, h, b))
  {
    var p, s1 := |s.procs|, Begun(s, h, b, Copy);
    Begins(obj, s, h, b, Copy);
    NewFree(Removed(s, b), Proc(h, b, Copy, true, Start));
    RemovedAlone(obj, s1, p);
    CopyFree(obj, s1, Removed(s1, b), p);
    CopiedBegun(s, s1, p, h, b);
    Then(obj, s, s1, WithCopied(s, h, b));
  }

  lemma CopiedBegun(s: State, s1: State, p: nat, h: Hash, b: Path)
    requires s1 == Begun(s, h, b, Copy) && p == |s.procs| && h in s.entries
    ensures WithPc(OwnCopy(Removed(s1, b), p), p, Done) == WithCopied(s, h, b)
  {
    assert s1.procs[p := Proc(h, b, Copy, true, Done)] == s.procs + [Proc(h, b, Copy, true, Done)];
    assert (s.outputs - {b} - {b})[b := File(s.next)] == s.outputs[b := File(s.next)];
    assert (s.maker - {b} - {b})[b := p] == s.maker[b := p];
  }

  /** A symbolic link dangles once the pruner has deleted its entry, although every event was disciplined. */
  lemma SymLinkMayDangle(obj: Compiler, h: Hash, a: Path, b: Path)
    requires a != b
    ensures
      var s := Shared(obj, h, a, b, SymLink);
      var pruned := Apply(obj, s, PruneEntry(h));
      && Reachable(obj, s) && Disciplined(s, PruneEntry(h)) && pruned.Some?
      && s.procs[1].pc.Done? && Made(s, 1) && ReadOutput(s, b) == Some(obj(h))
      && pruned.value.procs == s.procs && ReadOutput(pruned.value, b) == None
  {
    SharedReachable(obj, h, a, b, SymLink);
  }

  // ---------------------------------------------------------------- an old output that is not deleted in time

  /** One more process for h2 finds no entry, and is about to write its object to output b. */
  function AboutToRebuild(s: State, h2: Hash, b: Path, source: bool): State {
    s.(procs := s.procs + [Proc(h2, b, HardLink, source, Missed)])
  }

  /** Every state leads to this one for a module that is not a source file, whose old output stays: a plain rebuild. */
  lemma RebuildReachable(obj: Compiler, s: State, h2: Hash, b: Path)
    requires Reachable(obj, s) && h2 !in s.entries
    ensures Reachable(obj, AboutToRebuild(s, h2, b, false))
  {
    var p, s1 := |s.procs|, s.(procs := s.procs + [Proc(h2, b, HardLink, false, Start)]);
    By(obj, s, Spawn(h2, b, HardLink, false), s1);
    Extend(obj, s, s1);
    MissReachable(obj, s, h2, b, false);
  }

  lemma MissReachable(obj: Compiler, s: State, h2: Hash, b: Path, source: bool)
    requires h2 !in s.entries && Reachable(obj, s.(procs := s.procs + [Proc(h2, b, HardLink, source, Start)]))
    ensures Reachable(obj, AboutToRebuild(s, h2, b, source))
  {
    var p, s1 := |s.procs|, s.(procs := s.procs + [Proc(h2, b, HardLink, source, Start)]);
    assert s1.procs[p := Proc(h2, b, HardLink, source, Missed)] == AboutToRebuild(s, h2, b, source).procs;
    By(obj, s1, Step(p), AboutToRebuild(s, h2, b, source));
    Extend(obj, s1, AboutToRebuild(s, h2, b, source));
  }

  /** A second process for output b has deleted its old file. */
  function WithWaiting(s: State, h2: Hash, b: Path): State {
    s.(procs := s.procs + [Proc(h2, b, HardLink, true, Start)])
  }

  /** For source files it takes a race: between the deletion by one process and its lookup, another one that was started
      before links the same output. */
  lemma RaceReachable(obj: Compiler, s: State, h: Hash, b: Path, mode: Mode, h2: Hash)
    requires Reachable(obj, s) && h in s.entries && mode != Copy && forall q <- s.procs :: q.out == b ==> !NeedsOutput(q.pc)
    ensures Reachable(obj, WithWaiting(WithRetrieved(s, h, b, mode), h2, b))
  {
    var p, s1 := |s.procs|, Begun(s, h, b, mode);
    var s2 := Begun(s1, h2, b, HardLink);
    Begins(obj, s, h, b, mode);
    BegunFree(s, h, b, mode);
    Begins(obj, s1, h2, b, HardLink);
    Then(obj, s, s1, s2);
    BegunTwiceFree(s, h, b, mode, h2);
    LinkAlone(obj, s2, p);
    LinkedTwiceBegun(s, s2, p, h, b, mode, h2);
    Then(obj, s, s2, WithWaiting(WithRetrieved(s, h, b, mode), h2, b));
    Extend(obj, s, WithWaiting(WithRetrieved(s, h, b, mode), h2, b));
  }

  lemma BegunFree(s: State, h: Hash, b: Path, mode: Mode)
    requires forall q <- s.procs :: q.out == b ==> !NeedsOutput(q.pc)
    ensures forall q <- Begun(s, h, b, mode).procs :: q.out == b ==> !NeedsOutput(q.pc)
  {
  }

  lemma BegunTwiceFree(s: State, h: Hash, b: Path, mode: Mode, h2: Hash)
    requires forall q <- s.procs :: q.out == b ==> !NeedsOutput(q.pc)
    ensures RemovalFree(Begun(Begun(s, h, b, mode), h2, b, HardLink), |s.procs|)
  {
    var s2 := Begun(Begun(s, h, b, mode), h2, b, HardLink);
    forall q | 0 <= q < |s2.procs| && s2.procs[q].out == b ensures !NeedsOutput(s2.procs[q].pc) {
      assert q < |s.procs| ==> s2.procs[q] == s.procs[q] && s.procs[q] in s.procs;
    }
  }

  lemma LinkedTwiceBegun(s: State, s2: State, p: nat, h: Hash, b: Path, mode: Mode, h2: Hash)
    requires s2 == Begun(Begun(s, h, b, mode), h2, b, HardLink) && p == |s.procs| && h in s.entries
    ensures WithPc(Bound(s2, p, NodeFor(s2, h, mode)), p, Done) == WithWaiting(WithRetrieved(s, h, b, mode), h2, b)
  {
    assert s2.procs[p := Proc(h, b, mode, true, Done)] == WithWaiting(WithRetrieved(s, h, b, mode), h2, b).procs;
    assert (s.outputs - {b} - {b})[b := NodeFor(s, h, mode)] == s.outputs[b := NodeFor(s, h, mode)];
    assert (s.maker - {b} - {b})[b := p] == s.maker[b := p];
  }

  lemma WaitingPruned(obj: Compiler, s: State, h: Hash, h2: Hash, b: Path)
    requires Reachable(obj, WithWaiting(s, h2, b)) && h in s.entries
    ensures Reachable(obj, WithWaiting(s.(entries := s.entries - {h}), h2, b))
  {
    var s1 := WithWaiting(s.(entries := s.entries - {h}), h2, b);
    By(obj, WithWaiting(s, h2, b), PruneEntry(h), s1);
    Extend(obj, WithWaiting(s, h2, b), s1);
  }

  /** Both ways lead to the state about to rebuild a linked output. */
  lemma AboutReachable(obj: Compiler, h: Hash, h2: Hash, a: Path, b: Path, mode: Mode, source: bool)
    requires a != b && h != h2 && mode != Copy
    ensures Reachable(obj, AboutToRebuild(Shared(obj, h, a, b, mode), h2, b, source))
  {
    if source {
      StoredReachable(obj, h, a);
      RaceReachable(obj, Stored(obj, h, a), h, b, mode, h2);
      assert WithRetrieved(Stored(obj, h, a), h, b, mode) == Shared(obj, h, a, b, mode);
      MissReachable(obj, Shared(obj, h, a, b, mode), h2, b, true);
    } else {
      SharedReachable(obj, h, a, b, mode);
      RebuildReachable(obj, Shared(obj, h, a, b, mode), h2, b);
    }
  }

  /** Opening an output that is hard-linked to an entry overwrites the entry: that of h then holds the object of h2, and a
      process that retrieves h gets the wrong object. */
  lemma RebuildCorruptsEntry(obj: Compiler, h: Hash, h2: Hash, a: Path, b: Path, source: bool)
    requires a != b && h != h2
    ensures
      var s := AboutToRebuild(Shared(obj, h, a, b, HardLink), h2, b, source);
      && Reachable(obj, s) && !OutputFree(s, 2)
      && var rebuilt := Exec(obj, s, [Step(2), Write(2, |obj(h2)|)]);
         rebuilt.Some? && h in rebuilt.value.entries && Content(rebuilt.value, rebuilt.value.entries[h]) == obj(h2)
  {
    AboutReachable(obj, h, h2, a, b, HardLink, source);
    var s := AboutToRebuild(Shared(obj, h, a, b, HardLink), h2, b, source);
    assert s.procs[2] == Proc(h2, b, HardLink, source, Missed) && s.outputs[b] == File(1) && s.entries[h] == 1;
    EntryNotFree(s, 2, h);
    Overwrite(obj, s, 2, 1);
  }

  lemma EntryNotFree(s: State, p: nat, h: Hash)
    requires p < |s.procs| && s.procs[p].out in s.outputs && h in s.entries
    requires s.outputs[s.procs[p].out] == File(s.entries[h])
    ensures !OutputFree(s, p)
  {
  }

  /** Two outputs retrieved by hard link share the file of an entry, also after the entry was pruned. */
  function SharedTwice(obj: Compiler, h: Hash, a: Path, b: Path, c: Path): State {
    State(map[], map[], map[a := File(0), b := File(1), c := File(1)], map[0 := obj(h), 1 := obj(h)], 2, map[1 := h],
          map[a := 0, b := 1, c := 2],
          [Proc(h, a, Copy, true, Done), Proc(h, b, HardLink, true, Done), Proc(h, c, HardLink, true, Done)])
  }

  lemma TwiceReachable(obj: Compiler, h: Hash, h2: Hash, a: Path, b: Path, c: Path, source: bool)
    requires a != b && a != c && b != c
    ensures Reachable(obj, AboutToRebuild(SharedTwice(obj, h, a, b, c), h2, c, source))
  {
    SharedReachable(obj, h, a, b, HardLink);
    var s := Shared(obj, h, a, b, HardLink);
    var s2 := WithRetrieved(s, h, c, HardLink);
    SharedPruned(obj, h, a, b, c);
    if source {
      RaceReachable(obj, s, h, c, HardLink, h2);
      WaitingPruned(obj, s2, h, h2, c);
      MissReachable(obj, SharedTwice(obj, h, a, b, c), h2, c, true);
    } else {
      Retrieved(obj, s, h, c, HardLink);
      By(obj, s2, PruneEntry(h), SharedTwice(obj, h, a, b, c));
      Extend(obj, s2, SharedTwice(obj, h, a, b, c));
      RebuildReachable(obj, SharedTwice(obj, h, a, b, c), h2, c);
    }
  }

  lemma SharedPruned(obj: Compiler, h: Hash, a: Path, b: Path, c: Path)
    requires a != b && a != c && b != c
    ensures
      var s2 := WithRetrieved(Shared(obj, h, a, b, HardLink), h, c, HardLink);
      s2.(entries := s2.entries - {h}) == SharedTwice(obj, h, a, b, c)
  {
    assert map[h := 1] - {h} == map[];
  }

  /** Opening one of them empties the other, although no entry is left to be corrupted. */
  lemma RebuildCorruptsOutput(obj: Compiler, h: Hash, h2: Hash, a: Path, b: Path, c: Path, source: bool)
    requires a != b && a != c && b != c
    ensures
      var s := AboutToRebuild(SharedTwice(obj, h, a, b, c), h2, c, source);
      && Reachable(obj, s) && !OutputFree(s, 3) && ReadOutput(s, b) == Some(obj(h))
      && var after := StepOf(obj, s, 3);
         after.Some? && EntriesComplete(obj, after.value) && ReadOutput(after.value, b) == Some([])
  {
    TwiceReachable(obj, h, h2, a, b, c, source);
    var s := AboutToRebuild(SharedTwice(obj, h, a, b, c), h2, c, source);
    assert s.procs[1] == Proc(h, b, HardLink, true, Done) && Made(s, 1);
    assert Keeps(s, 1, 1);
    OpensInPlace(obj, s, 3, 1);
  }

  lemma DanglingReachable(obj: Compiler, h: Hash, a: Path, b: Path, source: bool)
    requires a != b
    ensures Reachable(obj, AboutToRebuild(Shared(obj, h, a, b, SymLink).(entries := map[]), h, b, source))
  {
    var shared := Shared(obj, h, a, b, SymLink);
    var pruned := shared.(entries := map[]);
    assert shared.entries - {h} == map[];
    if source {
      StoredReachable(obj, h, a);
      RaceReachable(obj, Stored(obj, h, a), h, b, SymLink, h);
      assert WithRetrieved(Stored(obj, h, a), h, b, SymLink) == shared;
      WaitingPruned(obj, shared, h, h, b);
      MissReachable(obj, pruned, h, b, true);
    } else {
      SharedReachable(obj, h, a, b, SymLink);
      By(obj, shared, PruneEntry(h), pruned);
      Extend(obj, shared, pruned);
      RebuildReachable(obj, pruned, h, b);
    }
  }

  /** Opening a dangling symbolic link makes the entry's file in place: others see it incomplete. */
  lemma RebuildThroughDanglingLink(obj: Compiler, h: Hash, a: Path, b: Path, source: bool)
    requires a != b && obj(h) != []
    ensures
      var s := AboutToRebuild(Shared(obj, h, a, b, SymLink).(entries := map[]), h, b, source);
      && Reachable(obj, s) && !OutputFree(s, 2)
      && StepOf(obj, s, 2).Some? && h in StepOf(obj, s, 2).value.entries
      && !EntriesComplete(obj, StepOf(obj, s, 2).value)
  {
    DanglingReachable(obj, h, a, b, source);
    var s := AboutToRebuild(Shared(obj, h, a, b, SymLink).(entries := map[]), h, b, source);
    var s' := StepOf(obj, s, 2).value;
    assert Content(s', s'.entries[h]) == [];
  }

  // ---------------------------------------------------------------- two running processes with the same output

  /** The object of h2 is stored, one process has compiled h to output b, and another has found the entry of h2 and is
      about to remove the same output; it had deleted the old one before. */
  function AboutToRemove(obj: Compiler, h: Hash, h2: Hash, a: Path, b: Path): State {
    State(map[h2 := 1], map[], map[a := File(0), b := File(2)], map[0 := obj(h2), 1 := obj(h2), 2 := obj(h)], 3, map[1 := h2],
          map[a := 0, b := 1],
          [Proc(h2, a, Copy, true, Done), Proc(h, b, Copy, true, Compiled), Proc(h2, b, HardLink, true, Hit)])
  }

  /** Both have deleted the old output, and the second one has found its entry. */
  function BothBegun(obj: Compiler, h: Hash, h2: Hash, a: Path, b: Path, pc: Pc): State {
    Stored(obj, h2, a).(procs :=
      [Proc(h2, a, Copy, true, Done), Proc(h, b, Copy, true, Start), Proc(h2, b, HardLink, true, pc)])
  }

  lemma BothBegin(obj: Compiler, h: Hash, h2: Hash, a: Path, b: Path)
    requires a != b
    ensures Leads(obj, Stored(obj, h2, a), BothBegun(obj, h, h2, a, b, Hit))
  {
    var s, s' := BothBegun(obj, h, h2, a, b, Start), BothBegun(obj, h, h2, a, b, Hit);
    BothDelete(obj, h, h2, a, b);
    assert s.procs[2 := s.procs[2].(pc := Hit)] == s'.procs;
    By(obj, s, Step(2), s');
    Then(obj, Stored(obj, h2, a), s, s');
  }

  lemma BothDelete(obj: Compiler, h: Hash, h2: Hash, a: Path, b: Path)
    requires a != b
    ensures Leads(obj, Stored(obj, h2, a), BothBegun(obj, h, h2, a, b, Start))
  {
    var s0 := Stored(obj, h2, a);
    var s1 := s0.(procs := [Proc(h2, a, Copy, true, Done), Proc(h, b, Copy, true, Start)]);
    Begins(obj, s0, h, b, Copy);
    assert Begun(s0, h, b, Copy) == s1;
    Begins(obj, s1, h2, b, HardLink);
    assert Begun(s1, h2, b, HardLink) == BothBegun(obj, h, h2, a, b, Start);
    Then(obj, s0, s1, BothBegun(obj, h, h2, a, b, Start));
  }

  lemma RemoveReachable(obj: Compiler, h: Hash, h2: Hash, a: Path, b: Path)
    requires a != b && h != h2
    ensures Reachable(obj, AboutToRemove(obj, h, h2, a, b))
  {
    var s := BothBegun(obj, h, h2, a, b, Hit);
    StoredReachable(obj, h2, a);
    BothBegin(obj, h, h2, a, b);
    Extend(obj, Stored(obj, h2, a), s);
    FirstCompiles(obj, h, h2, a, b);
    Extend(obj, s, AboutToRemove(obj, h, h2, a, b));
  }

  lemma FirstCompiles(obj: Compiler, h: Hash, h2: Hash, a: Path, b: Path)
    requires a != b && h != h2
    ensures Leads(obj, BothBegun(obj, h, h2, a, b, Hit), AboutToRemove(obj, h, h2, a, b))
  {
    var s := BothBegun(obj, h, h2, a, b, Hit);
    CompileAlone(obj, s, 1);
    assert WithPc(s.(outputs := s.outputs[b := File(2)], data := s.data[2 := obj(h)], next := 3, maker := s.maker[b := 1]),
                  1, Compiled) == AboutToRemove(obj, h, h2, a, b);
  }

  /** If it does, and links the output to the entry of h2, the other process stores the object of h2 as that of h. */
  lemma RemovalCorruptsEntry(obj: Compiler, h: Hash, h2: Hash, a: Path, b: Path)
    requires a != b && h != h2
    ensures
      var s := AboutToRemove(obj, h, h2, a, b);
      && Reachable(obj, s) && !RemovalFree(s, 2)
      && var after := StepOf(obj, s, 2);
         after.Some? && exists end :: Leads(obj, after.value, end) && h in end.entries && Content(end, end.entries[h]) == obj(h2)
  {
    RemoveReachable(obj, h, h2, a, b);
    var s := AboutToRemove(obj, h, h2, a, b);
    assert NeedsOutput(s.procs[1].pc) && s.procs[1].out == s.procs[2].out;
    assert StepOf(obj, s, 2) == Some(WithPc(Removed(s, b), 2, Fetching));
    AfterRemoval(obj, Removed(s, b), h, h2, b);
  }

  lemma AfterRemoval(obj: Compiler, s: State, h: Hash, h2: Hash, b: Path)
    requires |s.procs| == 3 && s.procs[1] == Proc(h, b, Copy, true, Compiled)
    requires s.procs[2] == Proc(h2, b, HardLink, true, Hit)
    requires Held(s.procs[0]).None? && s.temps == map[] && b !in s.outputs
    requires h2 in s.entries && s.entries[h2] == 1 && 1 < s.next && Content(s, 1) == obj(h2)
    ensures exists end :: Leads(obj, WithPc(s, 2, Fetching), end) && h in end.entries && Content(end, end.entries[h]) == obj(h2)
  {
    var after := WithPc(s, 2, Fetching);
    Stays(obj, after);
    LinkFree(obj, after, s, 2);
    var linked := WithPc(Bound(s, 2, File(1)), 2, Done);
    StoreAlone(obj, linked, 1, "t", 1);
    var end := WithPc(WithEntry(linked, h, obj(h2)), 1, Done);
    Then(obj, after, linked, end);
  }

  /** One process has compiled h to output a, and another is about to write the object of h2 to it. */
  function AboutToShare(obj: Compiler, h: Hash, h2: Hash, a: Path): State {
    AboutToRebuild(OneCompiled(obj, h, a), h2, a, true)
  }

  /** Both have deleted the old output, and the second one has found no entry. */
  lemma ShareReachable(obj: Compiler, h: Hash, h2: Hash, a: Path)
    ensures Reachable(obj, AboutToShare(obj, h, h2, a))
  {
    var s0 := EMPTY.(procs := [Proc(h, a, Copy, true, Start)]);
    var s1 := EMPTY.(procs := [Proc(h, a, Copy, true, Start), Proc(h2, a, HardLink, true, Start)]);
    BeginsEmpty(obj, h, a);
    Begins(obj, s0, h2, a, HardLink);
    assert Begun(s0, h2, a, HardLink) == s1;
    Then(obj, EMPTY, s0, s1);
    FromEmpty(obj, s1);
    assert s0.procs + [Proc(h2, a, HardLink, true, Start)] == s1.procs;
    MissReachable(obj, s0, h2, a, true);
    var s2 := AboutToRebuild(s0, h2, a, true);
    CompileAlone(obj, s2, 0);
    assert WithPc(s2.(outputs := map[a := File(0)], data := map[0 := obj(h)], next := 1, maker := map[a := 0]), 0, Compiled)
        == AboutToShare(obj, h, h2, a);
    Extend(obj, s2, AboutToShare(obj, h, h2, a));
  }

  /** If it opens the output, the first process stores an empty file as the object of h. */
  lemma OpeningCorruptsEntry(obj: Compiler, h: Hash, h2: Hash, a: Path)
    requires obj(h) != []
    ensures
      var s := AboutToShare(obj, h, h2, a);
      && Reachable(obj, s) && !OutputFree(s, 1)
      && var after := StepOf(obj, s, 1);
         after.Some? && exists end :: Leads(obj, after.value, end) && !EntriesComplete(obj, end)
  {
    ShareReachable(obj, h, h2, a);
    var s := AboutToShare(obj, h, h2, a);
    assert Holds(s, 0, 0);
    OpensInPlace(obj, s, 1, 0);
    var after := WithPc(MadeBy(Emptied(s, 0), 1), 1, Compiling(0, 0));
    StoreAlone(obj, after, 0, "t", 0);
    var end := WithPc(WithEntry(after, h, []), 0, Done);
    assert Leads(obj, after, end) && Content(end, end.entries[h]) == [];
  }

  // ---------------------------------------------------------------- a temporary name used twice

  /** Two processes have compiled the same module to different outputs; the first one has created its temporary
      file, and the pruner has deleted it. */
  function TempPruned(obj: Compiler, h: Hash, a: Path, b: Path, t: string): State {
    State(map[], map[], map[a := File(0), b := File(1)], map[0 := obj(h), 1 := obj(h), 2 := []], 3, map[],
          map[a := 0, b := 1], [Proc(h, a, Copy, true, TempMade(t)), Proc(h, b, Copy, true, Compiled)])
  }

  /** Two processes have compiled the same module to different outputs. */
  function BothCompiled(obj: Compiler, h: Hash, a: Path, b: Path): State {
    State(map[], map[], map[a := File(0), b := File(1)], map[0 := obj(h), 1 := obj(h)], 2, map[], map[a := 0, b := 1],
          [Proc(h, a, Copy, true, Compiled), Proc(h, b, Copy, true, Compiled)])
  }

  lemma BothStart(obj: Compiler, h: Hash, a: Path, b: Path)
    requires a != b
    ensures Leads(obj, EMPTY, EMPTY.(procs := [Proc(h, a, Copy, true, Start), Proc(h, b, Copy, true, Start)]))
  {
    var s0 := EMPTY.(procs := [Proc(h, a, Copy, true, Start)]);
    var s1 := EMPTY.(procs := [Proc(h, a, Copy, true, Start), Proc(h, b, Copy, true, Start)]);
    BeginsEmpty(obj, h, a);
    Begins(obj, s0, h, b, Copy);
    assert Begun(s0, h, b, Copy) == s1;
    Then(obj, EMPTY, s0, s1);
  }

  lemma BothCompile(obj: Compiler, h: Hash, a: Path, b: Path)
    requires a != b
    ensures Leads(obj, EMPTY.(procs := [Proc(h, a, Copy, true, Start), Proc(h, b, Copy, true, Start)]), BothCompiled(obj, h, a, b))
  {
    var s1 := EMPTY.(procs := [Proc(h, a, Copy, true, Start), Proc(h, b, Copy, true, Start)]);
    CompileAlone(obj, s1, 0);
    var s2 := State(map[], map[], map[a := File(0)], map[0 := obj(h)], 1, map[], map[a := 0],
                    [Proc(h, a, Copy, true, Compiled), Proc(h, b, Copy, true, Start)]);
    assert WithPc(s1.(outputs := map[a := File(0)], data := map[0 := obj(h)], next := 1, maker := map[a := 0]), 0, Compiled) == s2;
    CompileAlone(obj, s2, 1);
    var s3 := BothCompiled(obj, h, a, b);
    assert WithPc(s2.(outputs := s2.outputs[b := File(1)], data := s2.data[1 := obj(h)], next := 2,
                      maker := s2.maker[b := 1]), 1, Compiled) == s3;
    Then(obj, s1, s2, s3);
  }

  lemma TempPrunedReachable(obj: Compiler, h: Hash, a: Path, b: Path, t: string)
    requires a != b
    ensures Reachable(obj, TempPruned(obj, h, a, b, t))
  {
    var s1 := EMPTY.(procs := [Proc(h, a, Copy, true, Start), Proc(h, b, Copy, true, Start)]);
    BothStart(obj, h, a, b);
    BothCompile(obj, h, a, b);
    Then(obj, EMPTY, s1, BothCompiled(obj, h, a, b));
    TempDeleted(obj, BothCompiled(obj, h, a, b), h, a, b, t);
    Then(obj, EMPTY, BothCompiled(obj, h, a, b), TempPruned(obj, h, a, b, t));
    FromEmpty(obj, TempPruned(obj, h, a, b, t));
  }

  lemma TempDeleted(obj: Compiler, s: State, h: Hash, a: Path, b: Path, t: string)
    requires s == BothCompiled(obj, h, a, b)
    ensures Leads(obj, s, TempPruned(obj, h, a, b, t))
  {
    var temp := TempName(h, t);
    var made := TempPruned(obj, h, a, b, t).(temps := map[temp := 2]);
    assert s.procs[0 := Proc(h, a, Copy, true, TempMade(t))] == made.procs;
    By(obj, s, CreateTemp(0, t), made);
    assert made.temps - {temp} == map[];
    By(obj, made, PruneTemp(temp), TempPruned(obj, h, a, b, t));
    Then(obj, s, made, TempPruned(obj, h, a, b, t));
  }

  /** The second process can be given the same name, and then an incomplete entry can be exposed. */
  lemma TempReuseHappens(obj: Compiler, h: Hash, a: Path, b: Path, t: string)
    requires a != b && obj(h) != []
    ensures
      var s := TempPruned(obj, h, a, b, t);
      && Reachable(obj, s) && Held(s.procs[0]) == Some(TempName(h, t)) && Apply(obj, s, CreateTemp(1, t)).Some?
      && var s' := Apply(obj, s, CreateTemp(1, t)).value;
         exists run :: DisciplinedRun(obj, s', run) && Exec(obj, s', run).Some?
           && !EntriesComplete(obj, Exec(obj, s', run).value)
  {
    TempPrunedReachable(obj, h, a, b, t);
    var s := TempPruned(obj, h, a, b, t);
    ReachableOk(obj, s);
    assert Held(s.procs[0]) == Some(TempName(s.procs[1].hash, t));
    TempReuseExact(obj, s, 1, t);
  }
}
