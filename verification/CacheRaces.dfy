/** What the removal of an output that another process still needs leads to, over whole runs. */
module CacheRaces {

  import opened CacheLeads
  import opened CacheProtocol
  import opened CacheRuns
  import opened Common

  /** A disciplined run leads to an incomplete or wrong entry. */
  ghost predicate LeadsToWrong(obj: Compiler, s: State) {
    exists end :: Leads(obj, s, end) && !EntriesComplete(obj, end)
  }

  lemma WrongLater(obj: Compiler, s: State, s1: State)
    requires Leads(obj, s, s1) && LeadsToWrong(obj, s1)
    ensures LeadsToWrong(obj, s)
  {
    var end :| Leads(obj, s1, end) && !EntriesComplete(obj, end);
    Then(obj, s, s1, end);
  }

  /** If not all hashes have the same object: from a state in order, the removal of an output, after parsing or before a
      retrieval, leads to a run that exposes a wrong entry if and only if a process is still going to read it. */
  lemma RemovalRunsExact(obj: Compiler, s: State, p: nat, h1: Hash, h2: Hash)
    requires p < |s.procs| && Removing(s.procs[p].pc) && obj(h1) != obj(h2)
    requires Inv(obj, s)
    ensures StepOf(obj, s, p).Some?
    ensures LeadsToWrong(obj, StepOf(obj, s, p).value) <==> !RemovalFree(s, p)
  {
    var s' := WithPc(Removed(s, s.procs[p].out), p, RemovedPc(s.procs[p].pc));
    RemovingGoes(obj, s, p);
    if RemovalFree(s, p) {
      KeptByRemoveOutput(obj, s, p);
      NothingWrong(obj, s');
    } else {
      var q :| 0 <= q < |s.procs| && s.procs[q].out == s.procs[p].out && NeedsOutput(s.procs[q].pc);
      ProcInOrder(obj, s, q);
      NeederExists(obj, s, q);
      assert s'.procs[q] == s.procs[q];
      Deprived(obj, s', q, if obj(h1) != obj(s.procs[q].hash) then h1 else h2);
    }
  }

  lemma NothingWrong(obj: Compiler, s: State)
    requires Inv(obj, s)
    ensures !LeadsToWrong(obj, s)
  {
    forall end | Leads(obj, s, end) ensures EntriesComplete(obj, end) {
      var run :| DisciplinedRun(obj, s, run) && Exec(obj, s, run) == Some(end);
      RunKeeps(obj, s, run);
      InvIntact(obj, end);
    }
  }

  /** What the process that is going to read its output has written so far. */
  ghost predicate Underway(obj: Compiler, s: State, q: nat)
    requires q < |s.procs|
  {
    var Proc(h, _, _, _, pc) := s.procs[q];
    && NeedsOutput(pc)
    && (pc.Compiling? ==> pc.dst < s.next && pc.off <= |obj(h)| && Content(s, pc.dst) == obj(h)[..pc.off])
  }

  lemma NeederExists(obj: Compiler, s: State, q: nat)
    requires q < |s.procs| && NamesOk(s) && ProcOk(obj, s, q) && NeedsOutput(s.procs[q].pc)
    ensures Underway(obj, s, q)
  {
  }

  /** Its output is gone: a process for h, which has another object, makes the output anew, and process q stores that. */
  lemma Deprived(obj: Compiler, s: State, q: nat, h: Hash)
    requires q < |s.procs| && Underway(obj, s, q) && s.procs[q].out !in s.outputs && obj(h) != obj(s.procs[q].hash)
    ensures LeadsToWrong(obj, s)
  {
    var s1 := s.(entries := s.entries - {h});
    if h in s.entries {
      By(obj, s, PruneEntry(h), s1);
    } else {
      assert s1.entries == s.entries;
      Stays(obj, s);
    }
    var s2 := Intruded(obj, s1, q, h);
    Intrudes(obj, s1, q, h);
    IntrudedOutput(obj, s1, q, h);
    StoresOther(obj, s2, q, s.next);
    WrongLater(obj, s1, s2);
    WrongLater(obj, s, s1);
  }

  /** One more process has compiled h to the output of process q. */
  function Intruded(obj: Compiler, s: State, q: nat, h: Hash): State
    requires q < |s.procs|
  {
    var o := s.procs[q].out;
    s.(outputs := s.outputs[o := File(s.next)], data := s.data[s.next := obj(h)], next := s.next + 1,
       maker := s.maker[o := |s.procs|], procs := s.procs + [Proc(h, o, Copy, false, Compiled)])
  }

  lemma Intrudes(obj: Compiler, s: State, q: nat, h: Hash)
    requires q < |s.procs| && h !in s.entries && s.procs[q].out !in s.outputs
    ensures Leads(obj, s, Intruded(obj, s, q, h))
  {
    var o, r := s.procs[q].out, |s.procs|;
    var s1 := s.(procs := s.procs + [Proc(h, o, Copy, false, Start)]);
    By(obj, s, Spawn(h, o, Copy, false), s1);
    CompileAlone(obj, s1, r);
    assert s1.procs[r := Proc(h, o, Copy, false, Compiled)] == Intruded(obj, s, q, h).procs;
    assert WithPc(s1.(outputs := s1.outputs[o := File(s1.next)], data := s1.data[s1.next := obj(h)], next := s1.next + 1,
                      maker := s1.maker[o := r]), r, Compiled) == Intruded(obj, s, q, h);
    Then(obj, s, s1, Intruded(obj, s, q, h));
  }

  lemma IntrudedOutput(obj: Compiler, s: State, q: nat, h: Hash)
    requires q < |s.procs| && Underway(obj, s, q)
    ensures
      var s' := Intruded(obj, s, q, h);
      s'.procs[q] == s.procs[q] && Underway(obj, s', q) && s.next < s'.next && OutputIs(s', s.procs[q].out, s.next) &&
      Content(s', s.next) == obj(h) && (s.procs[q].pc.Compiling? ==> s.procs[q].pc.dst != s.next)
  {
  }

  /** A process stores whatever its output holds. */
  lemma StoresOther(obj: Compiler, s: State, q: nat, i: Ino)
    requires q < |s.procs| && Underway(obj, s, q) && i < s.next && OutputIs(s, s.procs[q].out, i)
    requires Content(s, i) != obj(s.procs[q].hash) && (s.procs[q].pc.Compiling? ==> s.procs[q].pc.dst != i)
    ensures LeadsToWrong(obj, s)
  {
    if s.procs[q].pc.Compiling? {
      CompilesOn(obj, s, q);
      var s1 := WithPc(s.(data := s.data[s.procs[q].pc.dst := obj(s.procs[q].hash)]), q, Compiled);
      StoresCompiled(obj, s1, q, i);
      WrongLater(obj, s, s1);
    } else if s.procs[q].pc.Compiled? {
      StoresCompiled(obj, s, q, i);
    } else {
      StoresTemp(obj, s, q, s.procs[q].pc.suffix, i);
    }
  }

  lemma CompilesOn(obj: Compiler, s: State, q: nat)
    requires q < |s.procs| && s.procs[q].pc.Compiling? && Underway(obj, s, q)
    ensures Leads(obj, s, WithPc(s.(data := s.data[s.procs[q].pc.dst := obj(s.procs[q].hash)]), q, Compiled))
  {
    var Compiling(dst, off) := s.procs[q].pc;
    var whole := obj(s.procs[q].hash);
    var n := |whole| - off;
    var s1 := s.(data := s.data[dst := whole]);
    WriteNext(whole, off, n);
    assert whole[..|whole|] == whole;
    By(obj, s, Write(q, n), WithPc(s1, q, Compiling(dst, |whole|)));
    CompiledStep(obj, s1, q, dst);
    Next(obj, s, s1, q, Compiling(dst, |whole|), s1, Compiled);
  }

  lemma StoresCompiled(obj: Compiler, s: State, q: nat, i: Ino)
    requires q < |s.procs| && s.procs[q].pc.Compiled? && i < s.next && OutputIs(s, s.procs[q].out, i)
    requires Content(s, i) != obj(s.procs[q].hash)
    ensures LeadsToWrong(obj, s)
  {
    var h := s.procs[q].hash;
    var t := FreshSuffix(s, q);
    StoreAlone(obj, s, q, t, i);
    WrongEntry(obj, s, q, h, Content(s, i));
    assert Leads(obj, s, WithPc(WithEntry(s, h, Content(s, i)), q, Done));
  }

  lemma WrongEntry(obj: Compiler, s: State, q: nat, h: Hash, b: Bytes)
    requires q < |s.procs| && b != obj(h)
    ensures !EntriesComplete(obj, WithPc(WithEntry(s, h, b), q, Done))
  {
    var end := WithPc(WithEntry(s, h, b), q, Done);
    assert end.entries[h] == s.next && Content(end, s.next) == b;
  }

  /** Likewise from the temporary file on, which the pruner may have deleted. */
  lemma StoresTemp(obj: Compiler, s: State, q: nat, t: string, i: Ino)
    requires q < |s.procs| && s.procs[q].pc == TempMade(t) && i < s.next && OutputIs(s, s.procs[q].out, i)
    requires Content(s, i) != obj(s.procs[q].hash)
    ensures LeadsToWrong(obj, s)
  {
    var h := s.procs[q].hash;
    var temp := TempName(h, t);
    var s1 := s.(temps := s.temps - {temp});
    if temp in s.temps {
      By(obj, s, PruneTemp(temp), s1);
    } else {
      assert s1.temps == s.temps;
      Stays(obj, s);
    }
    assert s1 == WithPc(s1, q, TempMade(t));
    Stays(obj, s1);
    StoreReopened(obj, s1, s1, q, t, i);
    WrongEntry(obj, s1, q, h, Content(s1, i));
    assert Leads(obj, s1, WithPc(WithEntry(s1, h, Content(s1, i)), q, Done));
    WrongLater(obj, s, s1);
  }

  lemma StoreReopened(obj: Compiler, s0: State, s: State, p: nat, t: string, src: Ino)
    requires p < |s.procs| && OutputIs(s, s.procs[p].out, src) && src < s.next && TempName(s.procs[p].hash, t) !in s.temps
    requires Leads(obj, s0, WithPc(s, p, TempMade(t)))
    ensures Leads(obj, s0, WithPc(WithEntry(s, s.procs[p].hash, Content(s, src)), p, Done))
  {
    var temp, i, b := TempName(s.procs[p].hash, t), s.next, Content(s, src);
    var made := CreateTempFile(s, temp);
    OpensNewTemp(obj, s0, s, p, t, src);
    StoreWrite(obj, s0, made, p, t, src, i);
    var written := made.(data := s.data[i := b]);
    assert made.data[i := b] == written.data;
    PublishesCopy(obj, s0, written, p, t, src, i);
    PublishNew(s, temp, b);
  }

  lemma OpensNewTemp(obj: Compiler, s0: State, s: State, p: nat, t: string, src: Ino)
    requires p < |s.procs| && OutputIs(s, s.procs[p].out, src) && TempName(s.procs[p].hash, t) !in s.temps
    requires Leads(obj, s0, WithPc(s, p, TempMade(t)))
    ensures Leads(obj, s0, WithPc(CreateTempFile(s, TempName(s.procs[p].hash, t)), p, StoreCopying(t, src, s.next, 0)))
  {
    ReadStep(obj, s, p, t, src);
    Next(obj, s0, s, p, TempMade(t), s, Storing(t, src));
    NewTempStep(obj, s, p, t, src);
    Next(obj, s0, s, p, Storing(t, src), CreateTempFile(s, TempName(s.procs[p].hash, t)), StoreCopying(t, src, s.next, 0));
  }

  lemma PublishesCopy(obj: Compiler, s0: State, s: State, p: nat, t: string, src: Ino, i: Ino)
    requires p < |s.procs| && TempName(s.procs[p].hash, t) in s.temps
    requires Leads(obj, s0, WithPc(s, p, StoreCopying(t, src, i, |Content(s, src)|)))
    ensures Leads(obj, s0, WithPc(Publish(s, TempName(s.procs[p].hash, t)), p, Done))
  {
    CopiedStep(obj, s, p, t, src, i);
    Next(obj, s0, s, p, StoreCopying(t, src, i, |Content(s, src)|), s, Renaming(t));
    PublishAlone(obj, s0, s, p, t);
  }

  lemma NewTempStep(obj: Compiler, s: State, p: nat, t: string, src: Ino)
    requires p < |s.procs| && TempName(s.procs[p].hash, t) !in s.temps
    ensures StepOf(obj, WithPc(s, p, Storing(t, src)), p) ==
      Some(WithPc(With(s, p, Storing(t, src), CreateTempFile(s, TempName(s.procs[p].hash, t))), p,
                  StoreCopying(t, src, s.next, 0)))
  {
  }

  lemma CopiedStep(obj: Compiler, s: State, p: nat, t: string, src: Ino, i: Ino)
    requires p < |s.procs|
    ensures
      var at := StoreCopying(t, src, i, |Content(s, src)|);
      StepOf(obj, WithPc(s, p, at), p) == Some(WithPc(With(s, p, at, s), p, Renaming(t)))
  {
  }

  // ---------------------------------------------------------------- a temporary name nobody uses

  lemma FreshSuffix(s: State, p: nat) returns (t: string)
    requires p < |s.procs|
    ensures TempName(s.procs[p].hash, t) !in s.temps && NotHeld(s, p, TempName(s.procs[p].hash, t))
  {
    var used := (set u <- s.temps :: u.suffix) +
                (set q | 0 <= q < |s.procs| && Held(s.procs[q]).Some? :: Held(s.procs[q]).value.suffix);
    t := Longer(used);
    forall q | 0 <= q < |s.procs| && q != p ensures Held(s.procs[q]) != Some(TempName(s.procs[p].hash, t)) {
      if Held(s.procs[q]).Some? { assert Held(s.procs[q]).value.suffix in used; }
    }
  }

  lemma Longer(used: set<string>) returns (t: string)
    ensures t !in used && forall u <- used :: |u| < |t|
    decreases |used|
  {
    if used == {} {
      t := "";
    } else {
      var u :| u in used;
      var t0 := Longer(used - {u});
      t := t0 + u + "x";
      forall v | v in used ensures |v| < |t| {
        assert v == u || v in used - {u};
      }
    }
  }
}
