/** Building disciplined runs of the cache protocol: what one process does on its own. */
module CacheLeads {

  import opened CacheProtocol
  import opened CacheRuns
  import opened Common

  /** A disciplined run leads from s to s'. */
  ghost predicate Leads(obj: Compiler, s: State, s': State) {
    exists run :: DisciplinedRun(obj, s, run) && Exec(obj, s, run) == Some(s')
  }

  lemma Then(obj: Compiler, s: State, s1: State, s2: State)
    requires Leads(obj, s, s1) && Leads(obj, s1, s2)
    ensures Leads(obj, s, s2)
  {
    var a :| DisciplinedRun(obj, s, a) && Exec(obj, s, a) == Some(s1);
    var b :| DisciplinedRun(obj, s1, b) && Exec(obj, s1, b) == Some(s2);
    ExecConcat(obj, s, a, b);
    DisciplinedConcat(obj, s, a, b);
  }

  lemma By(obj: Compiler, s: State, e: Event, s': State)
    requires Disciplined(s, e) && Apply(obj, s, e) == Some(s')
    ensures Leads(obj, s, s')
  {
    var run := [e];
    assert run[0] == e && run[1..] == [];
    assert Exec(obj, s', []) == Some(s') && DisciplinedRun(obj, s', []);
    assert Exec(obj, s, run) == Exec(obj, s', run[1..]);
    assert DisciplinedRun(obj, s, run) && Exec(obj, s, run) == Some(s');
  }

  lemma WithPcTwice(s: State, p: nat, a: Pc, b: Pc)
    requires p < |s.procs|
    ensures WithPc(WithPc(s, p, a), p, b) == WithPc(s, p, b)
  {
    assert s.procs[p := s.procs[p].(pc := a)][p := s.procs[p].(pc := b)] == s.procs[p := s.procs[p].(pc := b)];
  }

  /** The state in which process p is at `at`, with other files. */
  function With(s: State, p: nat, at: Pc, s1: State): State
    requires p < |s.procs|
  {
    s1.(procs := WithPc(s, p, at).procs)
  }

  /** One more step of process p, which is at `at` with the files s. */
  lemma Next(obj: Compiler, s0: State, s: State, p: nat, at: Pc, s1: State, to: Pc)
    requires p < |s.procs| && s1.procs == s.procs && Leads(obj, s0, WithPc(s, p, at))
    requires Disciplined(WithPc(s, p, at), Step(p))
    requires StepOf(obj, WithPc(s, p, at), p) == Some(WithPc(With(s, p, at, s1), p, to))
    ensures Leads(obj, s0, WithPc(s1, p, to))
  {
    WithPcTwice(s1, p, at, to);
    assert WithPc(s1, p, at) == With(s, p, at, s1);
    By(obj, WithPc(s, p, at), Step(p), WithPc(s1, p, to));
    Then(obj, s0, WithPc(s, p, at), WithPc(s1, p, to));
  }

  /** A miss with a new output, up to the compiled object. */
  lemma CompileAlone(obj: Compiler, s: State, p: nat)
    requires p < |s.procs| && s.procs[p].pc.Start? && s.procs[p].hash !in s.entries && s.procs[p].out !in s.outputs
    ensures
      var Proc(h, o, _, _, _) := s.procs[p];
      Leads(obj, s, WithPc(s.(outputs := s.outputs[o := File(s.next)], data := s.data[s.next := obj(h)], next := s.next + 1,
                              maker := s.maker[o := p]), p, Compiled))
  {
    var Proc(h, o, _, _, _) := s.procs[p];
    var i, n := s.next, |obj(h)|;
    OpenAlone(obj, s, p);
    var ready := MadeBy(NewFile(s).(outputs := s.outputs[o := File(i)]), p);
    CompileWrite(obj, s, ready, p, i);
    var written := ready.(data := s.data[i := obj(h)]);
    assert ready.data[i := obj(h)] == written.data;
    CompiledStep(obj, written, p, i);
    Next(obj, s, written, p, Compiling(i, n), written, Compiled);
  }

  lemma CompiledStep(obj: Compiler, s: State, p: nat, i: Ino)
    requires p < |s.procs|
    ensures
      var at := Compiling(i, |obj(s.procs[p].hash)|);
      StepOf(obj, WithPc(s, p, at), p) == Some(WithPc(With(s, p, at, s), p, Compiled))
  {
  }

  lemma OpenAlone(obj: Compiler, s: State, p: nat)
    requires p < |s.procs| && s.procs[p].pc.Start? && s.procs[p].hash !in s.entries && s.procs[p].out !in s.outputs
    ensures Leads(obj, s, WithPc(MadeBy(NewFile(s).(outputs := s.outputs[s.procs[p].out := File(s.next)]), p), p,
                                 Compiling(s.next, 0)))
  {
    assert s == WithPc(s, p, Start);
    By(obj, s, Step(p), WithPc(s, p, Missed));
    OpenStep(obj, s, p);
    Next(obj, s, s, p, Missed, MadeBy(NewFile(s).(outputs := s.outputs[s.procs[p].out := File(s.next)]), p),
         Compiling(s.next, 0));
  }

  lemma OpenStep(obj: Compiler, s: State, p: nat)
    requires p < |s.procs| && s.procs[p].out !in s.outputs
    ensures
      var open := MadeBy(NewFile(s).(outputs := s.outputs[s.procs[p].out := File(s.next)]), p);
      StepOf(obj, WithPc(s, p, Missed), p) == Some(WithPc(With(s, p, Missed, open), p, Compiling(s.next, 0)))
    ensures Disciplined(WithPc(s, p, Missed), Step(p))
  {
  }

  lemma CompileWrite(obj: Compiler, s0: State, s: State, p: nat, i: Ino)
    requires p < |s.procs| && Leads(obj, s0, WithPc(s, p, Compiling(i, 0))) && Content(s, i) == []
    ensures
      var whole := obj(s.procs[p].hash);
      Leads(obj, s0, WithPc(s.(data := s.data[i := whole]), p, Compiling(i, |whole|)))
  {
    var whole := obj(s.procs[p].hash);
    var n := |whole|;
    var written := s.(data := s.data[i := whole]);
    assert WriteAt([], 0, whole[0..n]) == whole;
    WithPcTwice(written, p, Compiling(i, 0), Compiling(i, n));
    By(obj, WithPc(s, p, Compiling(i, 0)), Write(p, n), WithPc(written, p, Compiling(i, n)));
    Then(obj, s0, WithPc(s, p, Compiling(i, 0)), WithPc(written, p, Compiling(i, n)));
  }

  /** The object is copied to a new temporary file. */
  lemma StoreCopy(obj: Compiler, s: State, p: nat, t: string, src: Ino)
    requires p < |s.procs| && s.procs[p].pc.Compiled?
    requires var temp := TempName(s.procs[p].hash, t); temp !in s.temps && NotHeld(s, p, temp)
    requires s.procs[p].out in s.outputs && s.outputs[s.procs[p].out] == File(src)
    requires src < s.next
    ensures
      var h := s.procs[p].hash;
      Leads(obj, s, WithPc(CreateTempFile(s, TempName(h, t)).(data := s.data[s.next := Content(s, src)]), p,
                           StoreCopying(t, src, s.next, |Content(s, src)|)))
  {
    var h := s.procs[p].hash;
    var temp, i := TempName(h, t), s.next;
    var made := CreateTempFile(s, temp);
    By(obj, s, CreateTemp(p, t), WithPc(made, p, TempMade(t)));
    assert made.data[i := []] == made.data;
    StoreOpen(obj, s, made, p, t, src);
    StoreWrite(obj, s, made, p, t, src, i);
    assert made.data[i := Content(s, src)] == s.data[i := Content(s, src)];
  }

  lemma StoreOpen(obj: Compiler, s0: State, s: State, p: nat, t: string, src: Ino)
    requires p < |s.procs| && OutputIs(s, s.procs[p].out, src) && Leads(obj, s0, WithPc(s, p, TempMade(t)))
    requires TempName(s.procs[p].hash, t) in s.temps
    requires var i := s.temps[TempName(s.procs[p].hash, t)]; s.data[i := []] == s.data
    ensures Leads(obj, s0, WithPc(s, p, StoreCopying(t, src, s.temps[TempName(s.procs[p].hash, t)], 0)))
  {
    ReadStep(obj, s, p, t, src);
    Next(obj, s0, s, p, TempMade(t), s, Storing(t, src));
    ReopenStep(obj, s, p, t, src);
    Next(obj, s0, s, p, Storing(t, src), s, StoreCopying(t, src, s.temps[TempName(s.procs[p].hash, t)], 0));
  }

  lemma ReadStep(obj: Compiler, s: State, p: nat, t: string, src: Ino)
    requires p < |s.procs| && OutputIs(s, s.procs[p].out, src)
    ensures StepOf(obj, WithPc(s, p, TempMade(t)), p) == Some(WithPc(With(s, p, TempMade(t), s), p, Storing(t, src)))
  {
  }

  /** Opening the temporary file again changes nothing if it is empty. */
  lemma ReopenStep(obj: Compiler, s: State, p: nat, t: string, src: Ino)
    requires p < |s.procs| && TempName(s.procs[p].hash, t) in s.temps
    requires var i := s.temps[TempName(s.procs[p].hash, t)]; s.data[i := []] == s.data
    ensures StepOf(obj, WithPc(s, p, Storing(t, src)), p) ==
      Some(WithPc(With(s, p, Storing(t, src), s), p, StoreCopying(t, src, s.temps[TempName(s.procs[p].hash, t)], 0)))
  {
  }

  lemma StoreCopied(obj: Compiler, s: State, p: nat, t: string, src: Ino)
    requires p < |s.procs| && s.procs[p].pc.Compiled?
    requires var temp := TempName(s.procs[p].hash, t); temp !in s.temps && NotHeld(s, p, temp)
    requires s.procs[p].out in s.outputs && s.outputs[s.procs[p].out] == File(src)
    requires src < s.next
    ensures
      var h := s.procs[p].hash;
      Leads(obj, s, WithPc(CreateTempFile(s, TempName(h, t)).(data := s.data[s.next := Content(s, src)]), p, Renaming(t)))
  {
    var h := s.procs[p].hash;
    StoreCopy(obj, s, p, t, src);
    var written := CreateTempFile(s, TempName(h, t)).(data := s.data[s.next := Content(s, src)]);
    Next(obj, s, written, p, StoreCopying(t, src, s.next, |Content(s, src)|), written, Renaming(t));
  }

  /** A new file with the given content has become the entry of h. */
  function WithEntry(s: State, h: Hash, b: Bytes): State {
    s.(entries := s.entries[h := s.next], data := s.data[s.next := b], next := s.next + 1, sealed := s.sealed[s.next := h])
  }

  lemma PublishNew(s: State, temp: TempName, b: Bytes)
    requires temp !in s.temps
    ensures Publish(CreateTempFile(s, temp).(data := s.data[s.next := b]), temp) == WithEntry(s, temp.hash, b)
  {
    assert s.temps[temp := s.next] - {temp} == s.temps;
  }

  /** The temporary file becomes the entry. */
  lemma StoreAlone(obj: Compiler, s: State, p: nat, t: string, src: Ino)
    requires p < |s.procs| && s.procs[p].pc.Compiled?
    requires var temp := TempName(s.procs[p].hash, t); temp !in s.temps && NotHeld(s, p, temp)
    requires s.procs[p].out in s.outputs && s.outputs[s.procs[p].out] == File(src)
    requires src < s.next
    ensures Leads(obj, s, WithPc(WithEntry(s, s.procs[p].hash, Content(s, src)), p, Done))
  {
    var temp := TempName(s.procs[p].hash, t);
    var b := Content(s, src);
    StoreCopied(obj, s, p, t, src);
    PublishAlone(obj, s, CreateTempFile(s, temp).(data := s.data[s.next := b]), p, t);
    PublishNew(s, temp, b);
  }

  lemma PublishAlone(obj: Compiler, s0: State, s: State, p: nat, t: string)
    requires p < |s.procs| && TempName(s.procs[p].hash, t) in s.temps && Leads(obj, s0, WithPc(s, p, Renaming(t)))
    ensures Leads(obj, s0, WithPc(Publish(s, TempName(s.procs[p].hash, t)), p, Done))
  {
    PublishStep(obj, s, p, t);
    Next(obj, s0, s, p, Renaming(t), Publish(s, TempName(s.procs[p].hash, t)), Done);
  }

  lemma PublishStep(obj: Compiler, s: State, p: nat, t: string)
    requires p < |s.procs| && TempName(s.procs[p].hash, t) in s.temps
    ensures StepOf(obj, WithPc(s, p, Renaming(t)), p) ==
      Some(WithPc(With(s, p, Renaming(t), Publish(s, TempName(s.procs[p].hash, t))), p, Done))
  {
  }

  lemma StoreWrite(obj: Compiler, s0: State, s: State, p: nat, t: string, src: Ino, i: Ino)
    requires p < |s.procs| && Leads(obj, s0, WithPc(s, p, StoreCopying(t, src, i, 0)))
    requires src != i && Content(s, i) == []
    ensures
      var whole := Content(s, src);
      Leads(obj, s0, WithPc(s.(data := s.data[i := whole]), p, StoreCopying(t, src, i, |whole|)))
  {
    var whole := Content(s, src);
    var n := |whole|;
    var written := s.(data := s.data[i := whole]);
    assert WriteAt([], 0, whole[0..n]) == whole;
    WithPcTwice(written, p, StoreCopying(t, src, i, 0), StoreCopying(t, src, i, n));
    By(obj, WithPc(s, p, StoreCopying(t, src, i, 0)), Write(p, n), WithPc(written, p, StoreCopying(t, src, i, n)));
    Then(obj, s0, WithPc(s, p, StoreCopying(t, src, i, 0)), WithPc(written, p, StoreCopying(t, src, i, n)));
  }

  /** One more process for a source file has deleted its old output. */
  function Begun(s: State, h: Hash, o: Path, mode: Mode): State {
    Removed(s, o).(procs := s.procs + [Proc(h, o, mode, true, Start)])
  }

  lemma Begins(obj: Compiler, s: State, h: Hash, o: Path, mode: Mode)
    requires forall q <- s.procs :: q.out == o ==> !NeedsOutput(q.pc)
    ensures Leads(obj, s, Begun(s, h, o, mode))
  {
    var p := |s.procs|;
    var s1 := s.(procs := s.procs + [NewProc(h, o, mode, true)]);
    By(obj, s, Spawn(h, o, mode, true), s1);
    NewFree(s, NewProc(h, o, mode, true));
    assert s1.procs[p := Proc(h, o, mode, true, Start)] == Begun(s, h, o, mode).procs;
    By(obj, s1, Step(p), Begun(s, h, o, mode));
    Then(obj, s, s1, Begun(s, h, o, mode));
  }

  lemma NewFree(s: State, proc: Proc)
    requires !NeedsOutput(proc.pc) && forall q <- s.procs :: q.out == proc.out ==> !NeedsOutput(q.pc)
    ensures RemovalFree(s.(procs := s.procs + [proc]), |s.procs|)
  {
    var s1 := s.(procs := s.procs + [proc]);
    forall q | 0 <= q < |s1.procs| && s1.procs[q].out == proc.out ensures !NeedsOutput(s1.procs[q].pc) {
      assert q < |s.procs| ==> s1.procs[q] == s.procs[q] && s.procs[q] in s.procs;
    }
  }

  /** A hit removes the old output. */
  lemma RemovedAlone(obj: Compiler, s: State, p: nat)
    requires p < |s.procs| && s.procs[p].pc.Start? && s.procs[p].hash in s.entries && RemovalFree(s, p)
    ensures Leads(obj, s, WithPc(Removed(s, s.procs[p].out), p, Fetching))
  {
    assert s == WithPc(s, p, Start);
    By(obj, s, Step(p), WithPc(s, p, Hit));
    assert RemovalFree(WithPc(s, p, Hit), p);
    RemoveStep(obj, s, p);
    Next(obj, s, s, p, Hit, Removed(s, s.procs[p].out), Fetching);
  }

  lemma RemoveStep(obj: Compiler, s: State, p: nat)
    requires p < |s.procs|
    ensures StepOf(obj, WithPc(s, p, Hit), p) == Some(WithPc(With(s, p, Hit, Removed(s, s.procs[p].out)), p, Fetching))
  {
  }

  /** A hit retrieved by link leaves the output bound to the entry or its file. */
  lemma LinkAlone(obj: Compiler, s: State, p: nat)
    requires p < |s.procs| && s.procs[p].pc.Start? && s.procs[p].hash in s.entries && s.procs[p].mode != Copy
    requires RemovalFree(s, p)
    ensures Leads(obj, s, WithPc(Bound(s, p, NodeFor(s, s.procs[p].hash, s.procs[p].mode)), p, Done))
  {
    var Proc(h, o, mode, _, _) := s.procs[p];
    RemovedAlone(obj, s, p);
    LinkFree(obj, s, Removed(s, o), p);
    var node := NodeFor(s, h, mode);
    assert (s.outputs - {o})[o := node] == s.outputs[o := node] && (s.maker - {o})[o := p] == s.maker[o := p];
    assert Bound(Removed(s, o), p, node) == Bound(s, p, node);
  }

  /** What a retrieval by link binds an output to. */
  function NodeFor(s: State, h: Hash, mode: Mode): Node
    requires h in s.entries
  {
    if mode.HardLink? then File(s.entries[h]) else Link(h)
  }

  lemma LinkFree(obj: Compiler, s0: State, s: State, p: nat)
    requires p < |s.procs| && s.procs[p].hash in s.entries && s.procs[p].mode != Copy && s.procs[p].out !in s.outputs
    requires Leads(obj, s0, WithPc(s, p, Fetching))
    ensures Leads(obj, s0, WithPc(Bound(s, p, NodeFor(s, s.procs[p].hash, s.procs[p].mode)), p, Done))
  {
    var linked := Bound(s, p, NodeFor(s, s.procs[p].hash, s.procs[p].mode));
    LinkStep(obj, s, p);
    Next(obj, s0, s, p, Fetching, linked, Touching);
    TouchStep(obj, linked, p);
    Next(obj, s0, linked, p, Touching, linked, Done);
  }

  lemma LinkStep(obj: Compiler, s: State, p: nat)
    requires p < |s.procs| && s.procs[p].hash in s.entries && s.procs[p].mode != Copy && s.procs[p].out !in s.outputs
    ensures
      var linked := Bound(s, p, NodeFor(s, s.procs[p].hash, s.procs[p].mode));
      StepOf(obj, WithPc(s, p, Fetching), p) == Some(WithPc(With(s, p, Fetching, linked), p, Touching))
  {
    LinkingMakes(obj, WithPc(s, p, Fetching), p);
  }

  /** The state after process p has copied the entry to a new output. */
  function OwnCopy(s: State, p: nat): State
    requires p < |s.procs| && s.procs[p].hash in s.entries
  {
    MadeBy(NewFile(s).(outputs := s.outputs[s.procs[p].out := File(s.next)],
                       data := s.data[s.next := Content(s, s.entries[s.procs[p].hash])]), p)
  }

  /** Likewise by copy, to a new file. */
  lemma CopyFree(obj: Compiler, s0: State, s: State, p: nat)
    requires p < |s.procs| && s.procs[p].hash in s.entries && s.procs[p].mode == Copy && s.procs[p].out !in s.outputs
    requires s.entries[s.procs[p].hash] < s.next && Leads(obj, s0, WithPc(s, p, Fetching))
    ensures Leads(obj, s0, WithPc(OwnCopy(s, p), p, Done))
  {
    var src := s.entries[s.procs[p].hash];
    CopyOpen(obj, s0, s, p);
    var open := MadeBy(NewFile(s).(outputs := s.outputs[s.procs[p].out := File(s.next)]), p);
    CopyWrite(obj, s0, open, p, src, s.next);
    assert open.data[s.next := Content(s, src)] == OwnCopy(s, p).data;
    CopyEnd(obj, s0, OwnCopy(s, p), p, src, s.next);
  }

  lemma CopyOpen(obj: Compiler, s0: State, s: State, p: nat)
    requires p < |s.procs| && s.procs[p].hash in s.entries && s.procs[p].mode == Copy && s.procs[p].out !in s.outputs
    requires Leads(obj, s0, WithPc(s, p, Fetching))
    ensures
      var open := MadeBy(NewFile(s).(outputs := s.outputs[s.procs[p].out := File(s.next)]), p);
      Leads(obj, s0, WithPc(open, p, RecoverCopying(s.entries[s.procs[p].hash], s.next, 0)))
  {
    var src := s.entries[s.procs[p].hash];
    FetchStep(obj, s, p);
    Next(obj, s0, s, p, Fetching, s, Recovering(src));
    CopyOpenStep(obj, s, p, src);
    Next(obj, s0, s, p, Recovering(src), MadeBy(NewFile(s).(outputs := s.outputs[s.procs[p].out := File(s.next)]), p),
         RecoverCopying(src, s.next, 0));
  }

  lemma CopyEnd(obj: Compiler, s0: State, s: State, p: nat, src: Ino, i: Ino)
    requires p < |s.procs| && s.procs[p].hash in s.entries
    requires Leads(obj, s0, WithPc(s, p, RecoverCopying(src, i, |Content(s, src)|)))
    ensures Leads(obj, s0, WithPc(s, p, Done))
  {
    CopyEndStep(obj, s, p, src, i);
    Next(obj, s0, s, p, RecoverCopying(src, i, |Content(s, src)|), s, Touching);
    TouchStep(obj, s, p);
    Next(obj, s0, s, p, Touching, s, Done);
  }

  lemma FetchStep(obj: Compiler, s: State, p: nat)
    requires p < |s.procs| && s.procs[p].hash in s.entries && s.procs[p].mode == Copy
    ensures StepOf(obj, WithPc(s, p, Fetching), p) ==
      Some(WithPc(With(s, p, Fetching, s), p, Recovering(s.entries[s.procs[p].hash])))
  {
  }

  lemma CopyOpenStep(obj: Compiler, s: State, p: nat, src: Ino)
    requires p < |s.procs| && s.procs[p].out !in s.outputs
    ensures
      var open := MadeBy(NewFile(s).(outputs := s.outputs[s.procs[p].out := File(s.next)]), p);
      StepOf(obj, WithPc(s, p, Recovering(src)), p) ==
        Some(WithPc(With(s, p, Recovering(src), open), p, RecoverCopying(src, s.next, 0)))
    ensures Disciplined(WithPc(s, p, Recovering(src)), Step(p))
  {
  }

  lemma CopyWrite(obj: Compiler, s0: State, s: State, p: nat, src: Ino, i: Ino)
    requires p < |s.procs| && Leads(obj, s0, WithPc(s, p, RecoverCopying(src, i, 0))) && src != i && Content(s, i) == []
    ensures
      var whole := Content(s, src);
      Leads(obj, s0, WithPc(s.(data := s.data[i := whole]), p, RecoverCopying(src, i, |whole|)))
  {
    var whole := Content(s, src);
    var n := |whole|;
    var written := s.(data := s.data[i := whole]);
    assert WriteAt([], 0, whole[0..n]) == whole;
    WithPcTwice(written, p, RecoverCopying(src, i, 0), RecoverCopying(src, i, n));
    By(obj, WithPc(s, p, RecoverCopying(src, i, 0)), Write(p, n), WithPc(written, p, RecoverCopying(src, i, n)));
    Then(obj, s0, WithPc(s, p, RecoverCopying(src, i, 0)), WithPc(written, p, RecoverCopying(src, i, n)));
  }

  lemma CopyEndStep(obj: Compiler, s: State, p: nat, src: Ino, i: Ino)
    requires p < |s.procs|
    ensures
      var at := RecoverCopying(src, i, |Content(s, src)|);
      StepOf(obj, WithPc(s, p, at), p) == Some(WithPc(With(s, p, at, s), p, Touching))
  {
  }

  lemma TouchStep(obj: Compiler, s: State, p: nat)
    requires p < |s.procs| && s.procs[p].hash in s.entries
    ensures StepOf(obj, WithPc(s, p, Touching), p) == Some(WithPc(With(s, p, Touching, s), p, Done))
  {
  }

  lemma Stays(obj: Compiler, s: State)
    ensures Leads(obj, s, s)
  {
    assert DisciplinedRun(obj, s, []) && Exec(obj, s, []) == Some(s);
  }

  lemma Extend(obj: Compiler, s: State, s': State)
    requires Reachable(obj, s) && Leads(obj, s, s')
    ensures Reachable(obj, s')
  {
    var s0, a :| Initial(s0) && DisciplinedRun(obj, s0, a) && Exec(obj, s0, a) == Some(s);
    assert Leads(obj, s0, s);
    Then(obj, s0, s, s');
    var b :| DisciplinedRun(obj, s0, b) && Exec(obj, s0, b) == Some(s');
  }

  /** Opening in place and writing replaces the content of the output's file. */
  lemma Overwrite(obj: Compiler, s: State, p: nat, i: Ino)
    requires p < |s.procs| && s.procs[p].pc.Missed?
    requires s.procs[p].out in s.outputs && s.outputs[s.procs[p].out] == File(i)
    ensures
      var whole := obj(s.procs[p].hash);
      var r := Exec(obj, s, [Step(p), Write(p, |whole|)]);
      r.Some? && r.value.entries == s.entries && Content(r.value, i) == whole
  {
    var whole := obj(s.procs[p].hash);
    var s1 := WithPc(MadeBy(Emptied(s, i), p), p, Compiling(i, 0));
    OpensInPlace(obj, s, p, i);
    WritesWhole(obj, s1, p, i);
    TwoEvents(obj, s, Step(p), s1, Write(p, |whole|), WithWhole(obj, s1, p, i));
  }

  lemma TwoEvents(obj: Compiler, s: State, e1: Event, s1: State, e2: Event, s2: State)
    requires Apply(obj, s, e1) == Some(s1) && Apply(obj, s1, e2) == Some(s2)
    ensures Exec(obj, s, [e1, e2]) == Some(s2)
  {
    assert Exec(obj, s2, []) == Some(s2);
    ExecOne(obj, s1, e2, []);
    ExecOne(obj, s, e1, [e2] + []);
    assert [e1] + ([e2] + []) == [e1, e2];
  }

  function WithWhole(obj: Compiler, s: State, p: nat, i: Ino): State
    requires p < |s.procs|
  {
    var whole := obj(s.procs[p].hash);
    WithPc(s.(data := s.data[i := whole]), p, Compiling(i, |whole|))
  }

  lemma WritesWhole(obj: Compiler, s: State, p: nat, i: Ino)
    requires p < |s.procs| && s.procs[p].pc == Compiling(i, 0) && Content(s, i) == []
    ensures WriteOf(obj, s, p, |obj(s.procs[p].hash)|) == Some(WithWhole(obj, s, p, i))
  {
    var whole := obj(s.procs[p].hash);
    assert WriteAt([], 0, whole[0..|whole|]) == whole;
  }
}
