/** What holds over whole runs of the cache protocol, and exactly when the guarantees fail. */
module CacheRuns {

  import opened CacheProtocol
  import opened Common

  /** The state after a run, if every event of the run is possible. */
  function Exec(obj: Compiler, s: State, events: seq<Event>): Option<State>
    decreases |events|
  {
    if events == [] then Some(s)
    else match Apply(obj, s, events[0])
      case None => None
      case Some(s') => Exec(obj, s', events[1..])
  }

  /** Every event of the run is disciplined where it happens. */
  ghost predicate DisciplinedRun(obj: Compiler, s: State, events: seq<Event>)
    decreases |events|
  {
    events != [] ==>
      && Disciplined(s, events[0])
      && (Apply(obj, s, events[0]).Some? ==> DisciplinedRun(obj, Apply(obj, s, events[0]).value, events[1..]))
  }

  /** No process, an empty cache, and unrelated regular files at the output paths. */
  ghost predicate Initial(s: State) {
    && s.procs == [] && s.entries == map[] && s.temps == map[] && s.sealed == map[] && s.maker == map[]
    && (forall o <- s.outputs :: s.outputs[o].File? && s.outputs[o].ino < s.next)
    && (forall o, o' :: o in s.outputs && o' in s.outputs && o != o' ==> s.outputs[o] != s.outputs[o'])
  }

  /** Every entry holds the complete object of its hash. */
  ghost predicate EntriesComplete(obj: Compiler, s: State) {
    forall h <- s.entries :: Content(s, s.entries[h]) == obj(h)
  }

  function Prefix(whole: Bytes, off: nat): Bytes {
    if off <= |whole| then whole[..off] else whole
  }

  /** What process q relies on is right: what it has written so far, the object it copies or renames, the output it is
      going to read, and the output it leaves. */
  ghost predicate Served(obj: Compiler, s: State, q: nat)
    requires q < |s.procs|
  {
    var Proc(h, o, _, _, pc) := s.procs[q];
    && (Writing(pc) ==> Content(s, pc.dst) == Prefix(obj(h), pc.off))
    && (Reading(pc) ==> Content(s, pc.src) == obj(h))
    && (pc.Renaming? && TempName(h, pc.suffix) in s.temps ==> Content(s, s.temps[TempName(h, pc.suffix)]) == obj(h))
    && (NeedsOutput(pc) ==> o in s.outputs && s.outputs[o].File? && OutputServed(obj, s, q, s.outputs[o].ino))
    && (LeavesOutput(pc) && Made(s, q) ==>
          o in s.outputs && (s.outputs[o].File? ==> OutputServed(obj, s, q, s.outputs[o].ino)))
  }

  /** The file of an output is the one being written, or holds the object. */
  ghost predicate OutputServed(obj: Compiler, s: State, q: nat, i: Ino)
    requires q < |s.procs|
  {
    var Proc(h, _, _, _, pc) := s.procs[q];
    if pc.Compiling? || pc.RecoverCopying? then i == pc.dst else Content(s, i) == obj(h)
  }

  /** No two processes have the same file open for writing. */
  ghost predicate WritersApart(s: State) {
    forall p, q :: 0 <= p < q < |s.procs| && Writing(s.procs[p].pc) && Writing(s.procs[q].pc) ==>
      s.procs[p].pc.dst != s.procs[q].pc.dst
  }

  /** Everything the processes and later builds rely on is right. */
  ghost predicate Intact(obj: Compiler, s: State) {
    && EntriesComplete(obj, s) && WritersApart(s)
    && (forall q :: 0 <= q < |s.procs| ==> Served(obj, s, q))
  }

  ghost predicate Reachable(obj: Compiler, s: State) {
    exists s0, events :: Initial(s0) && DisciplinedRun(obj, s0, events) && Exec(obj, s0, events) == Some(s)
  }

  // ---------------------------------------------------------------- safety

  lemma {:induction false} RunKeeps(obj: Compiler, s: State, events: seq<Event>)
    requires Inv(obj, s) && DisciplinedRun(obj, s, events) && Exec(obj, s, events).Some?
    ensures Inv(obj, Exec(obj, s, events).value)
    decreases |events|
  {
    if events != [] {
      Kept(obj, s, events[0]);
      RunKeeps(obj, Apply(obj, s, events[0]).value, events[1..]);
    }
  }

  lemma ReachableOk(obj: Compiler, s: State)
    requires Reachable(obj, s)
    ensures Inv(obj, s)
  {
    var s0, events :| Initial(s0) && DisciplinedRun(obj, s0, events) && Exec(obj, s0, events) == Some(s);
    RunKeeps(obj, s0, events);
  }

  lemma InvIntact(obj: Compiler, s: State)
    requires Inv(obj, s)
    ensures Intact(obj, s)
  {
    forall q | 0 <= q < |s.procs| ensures Served(obj, s, q) {
      ProcInOrder(obj, s, q);
    }
    forall p, q | 0 <= p < q < |s.procs| && Writing(s.procs[p].pc) && Writing(s.procs[q].pc)
      ensures s.procs[p].pc.dst != s.procs[q].pc.dst
    {
      ProcInOrder(obj, s, q);
      WriterRelies(obj, s, q);
      assert !Relies(s, q, s.procs[p].pc.dst);
    }
  }

  /** In every interleaving, no entry is ever incomplete, no process ever has an entry's file open for writing, no two
      processes write the same file, and nothing another process relies on is disturbed. */
  lemma EntriesAlwaysComplete(obj: Compiler, s: State)
    requires Reachable(obj, s)
    ensures Intact(obj, s)
    ensures forall p <- s.procs, h <- s.entries :: Writing(p.pc) ==> p.pc.dst != s.entries[h]
  {
    ReachableOk(obj, s);
    InvIntact(obj, s);
    forall p, h | 0 <= p < |s.procs| && h in s.entries
      ensures Writing(s.procs[p].pc) ==> s.procs[p].pc.dst != s.entries[h]
    {
      if Writing(s.procs[p].pc) { WriterAlone(obj, s, p); }
    }
  }

  /** Cache transparency: the output of a finished process reads as the uncached compilation would give, unless
      it is a symbolic link whose entry was pruned since. This holds in every later state, until another
      process removes the output or opens it for writing. */
  lemma Transparent(obj: Compiler, s: State, p: nat)
    requires Reachable(obj, s) && p < |s.procs| && s.procs[p].pc.Done? && Made(s, p)
    ensures
      var Proc(h, o, mode, _, _) := s.procs[p];
      && o in s.outputs
      && (ReadOutput(s, o) == Some(obj(h)) <==> !(s.outputs[o].Link? && h !in s.entries))
      && (s.outputs[o].Link? ==> s.outputs[o] == Link(h) && (mode.AnyLink? || mode.SymLink?))
  {
    ReachableOk(obj, s);
    assert ProcOk(obj, s, p);
  }

  /** At the moment a process that recovered its output finishes, the output is right in every mode, also if
      it is a symbolic link, unless another process has replaced it meanwhile. */
  lemma TransparentAfterTouch(obj: Compiler, s: State, p: nat)
    requires Reachable(obj, s) && p < |s.procs| && s.procs[p].pc.Touching?
    ensures StepOf(obj, s, p) == Some(WithPc(s, p, if s.procs[p].hash in s.entries then Done else Stopped))
    ensures s.procs[p].hash in s.entries && Made(s, p) ==>
      ReadOutput(WithPc(s, p, Done), s.procs[p].out) == Some(obj(s.procs[p].hash))
  {
    ReachableOk(obj, s);
    assert ProcOk(obj, s, p);
  }

  /** Likewise for a process that compiled: its rename publishes the object, and leaves its output right. */
  lemma TransparentAfterRename(obj: Compiler, s: State, p: nat, temp: TempName)
    requires Reachable(obj, s) && p < |s.procs| && s.procs[p].pc.Renaming?
    requires temp == TempName(s.procs[p].hash, s.procs[p].pc.suffix) && temp in s.temps
    ensures StepOf(obj, s, p) == Some(WithPc(Publish(s, temp), p, Done))
    ensures Made(s, p) ==> ReadOutput(WithPc(Publish(s, temp), p, Done), s.procs[p].out) == Some(obj(s.procs[p].hash))
  {
    ReachableOk(obj, s);
    assert ProcOk(obj, s, p);
  }

  /** The event replaces an output: it removes the file, opens it for writing, or binds the name to an entry. */
  ghost predicate Replaces(s: State, e: Event, o: Path) {
    e.Step? && e.p < |s.procs| && s.procs[e.p].out == o &&
    var pc := s.procs[e.p].pc;
    Opening(pc) || Removing(pc) || (pc.Fetching? && s.procs[e.p].mode != Copy && o !in s.outputs)
  }

  /** No event of the run does. */
  ghost predicate NeverReplaced(obj: Compiler, s: State, run: seq<Event>, o: Path)
    decreases |run|
  {
    run != [] && Apply(obj, s, run[0]).Some? ==>
      !Replaces(s, run[0], o) && NeverReplaced(obj, Apply(obj, s, run[0]).value, run[1..], o)
  }

  /** Opening an output makes it, and so does linking it. */
  lemma OpeningMakes(obj: Compiler, s: State, p: nat)
    requires p < |s.procs| && Opening(s.procs[p].pc)
    ensures StepOf(obj, s, p) == Some(WithPc(Opened(s, p), p, OpenedPc(s.procs[p].pc, OpenForWrite(s, s.procs[p].out).1)))
    ensures Made(Opened(s, p), p)
  {
  }

  lemma LinkingMakes(obj: Compiler, s: State, p: nat)
    requires p < |s.procs| && s.procs[p].pc.Fetching? && s.procs[p].mode != Copy && s.procs[p].out !in s.outputs
    requires s.procs[p].mode.HardLink? ==> s.procs[p].hash in s.entries
    ensures
      var node := if s.procs[p].mode.HardLink? then File(s.entries[s.procs[p].hash]) else Link(s.procs[p].hash);
      StepOf(obj, s, p) == Some(WithPc(Bound(s, p, node), p, Touching)) && Made(Bound(s, p, node), p)
  {
  }

  lemma RemovingGoes(obj: Compiler, s: State, p: nat)
    requires p < |s.procs| && Removing(s.procs[p].pc)
    ensures StepOf(obj, s, p) == Some(WithPc(Removed(s, s.procs[p].out), p, RemovedPc(s.procs[p].pc)))
  {
  }

  /** Process p is still there, and its output is still its own. */
  ghost predicate SameMaker(s: State, s': State, p: nat)
    requires p < |s.procs|
  {
    p < |s'.procs| && s'.procs[p].(pc := s.procs[p].pc) == s.procs[p] && Made(s', p)
  }

  lemma StillMade(obj: Compiler, s: State, e: Event, p: nat)
    requires p < |s.procs| && Made(s, p) && Apply(obj, s, e).Some? && !Replaces(s, e, s.procs[p].out)
    ensures SameMaker(s, Apply(obj, s, e).value, p)
  {
    match e
    case Step(q) => StepMade(obj, s, q, p);
    case Write(q, n) => WriteMade(obj, s, q, n, p);
    case _ =>
  }

  lemma StepMade(obj: Compiler, s: State, q: nat, p: nat)
    requires p < |s.procs| && q < |s.procs| && Made(s, p) && StepOf(obj, s, q).Some?
    requires !Replaces(s, Step(q), s.procs[p].out)
    ensures SameMaker(s, StepOf(obj, s, q).value, p)
  {
    var pc := s.procs[q].pc;
    if Writing(pc) {
      WritingGoes(obj, s, q);
      MovedMaker(s, s, q, EndPc(pc), p);
    } else if Quiet(pc) {
      OthersGo(obj, s, q);
      MovedMaker(s, s, q, NextPc(s, q), p);
    } else if Opening(pc) {
      OpeningMakes(obj, s, q);
      MovedMaker(s, Opened(s, q), q, OpenedPc(pc, OpenForWrite(s, s.procs[q].out).1), p);
    } else if Removing(pc) {
      RemovingGoes(obj, s, q);
      MovedMaker(s, Removed(s, s.procs[q].out), q, RemovedPc(pc), p);
    } else if pc.Fetching? {
      FetchMade(obj, s, q, p);
    } else {
      TempStepMade(obj, s, q, p);
    }
  }

  /** A process moves, after an edit that did not replace the output of p. */
  lemma MovedMaker(s: State, s1: State, q: nat, to: Pc, p: nat)
    requires p < |s.procs| && q < |s.procs| && s1.procs == s.procs && Made(s1, p)
    ensures SameMaker(s, WithPc(s1, q, to), p)
  {
  }

  lemma FetchMade(obj: Compiler, s: State, q: nat, p: nat)
    requires p < |s.procs| && q < |s.procs| && Made(s, p) && s.procs[q].pc.Fetching?
    requires !Replaces(s, Step(q), s.procs[p].out)
    ensures SameMaker(s, StepOf(obj, s, q).value, p)
  {
    var Proc(h, o, mode, _, _) := s.procs[q];
    if mode != Copy && o !in s.outputs && (mode.HardLink? ==> h in s.entries) {
      LinkingMakes(obj, s, q);
      var node := if mode.HardLink? then File(s.entries[h]) else Link(h);
      MovedMaker(s, Bound(s, q, node), q, Touching, p);
    } else {
      var to := if mode == Copy && h in s.entries then Recovering(s.entries[h]) else Stopped;
      FetchedNothing(obj, s, q, to);
      MovedMaker(s, s, q, to, p);
    }
  }

  lemma FetchedNothing(obj: Compiler, s: State, q: nat, to: Pc)
    requires q < |s.procs| && s.procs[q].pc.Fetching?
    requires
      var Proc(h, o, mode, _, _) := s.procs[q];
      && to == (if mode == Copy && h in s.entries then Recovering(s.entries[h]) else Stopped)
      && !(mode != Copy && o !in s.outputs && (mode.HardLink? ==> h in s.entries))
    ensures StepOf(obj, s, q) == Some(WithPc(s, q, to))
  {
  }

  lemma TempStepMade(obj: Compiler, s: State, q: nat, p: nat)
    requires p < |s.procs| && q < |s.procs| && Made(s, p) && (s.procs[q].pc.Storing? || s.procs[q].pc.Renaming?)
    ensures SameMaker(s, StepOf(obj, s, q).value, p)
  {
    var pc := s.procs[q].pc;
    if pc.Storing? {
      ReopenMade(s, q, pc.suffix, pc.src, p);
    } else {
      RenameMade(obj, s, q, p);
    }
  }

  lemma ReopenMade(s: State, q: nat, t: string, src: Ino, p: nat)
    requires p < |s.procs| && q < |s.procs| && Made(s, p)
    ensures SameMaker(s, OpenTemp(s, q, t, src), p)
  {
    var temp := TempName(s.procs[q].hash, t);
    if temp in s.temps {
      MovedMaker(s, s.(data := s.data[s.temps[temp] := []]), q, StoreCopying(t, src, s.temps[temp], 0), p);
    } else {
      MovedMaker(s, CreateTempFile(s, temp), q, StoreCopying(t, src, s.next, 0), p);
    }
  }

  lemma RenameMade(obj: Compiler, s: State, q: nat, p: nat)
    requires p < |s.procs| && q < |s.procs| && Made(s, p) && s.procs[q].pc.Renaming?
    ensures SameMaker(s, StepOf(obj, s, q).value, p)
  {
    var temp := TempName(s.procs[q].hash, s.procs[q].pc.suffix);
    if temp in s.temps {
      MovedMaker(s, Publish(s, temp), q, Done, p);
    } else {
      MovedMaker(s, s, q, Stopped, p);
    }
  }

  lemma WriteMade(obj: Compiler, s: State, q: nat, n: nat, p: nat)
    requires p < |s.procs| && q < |s.procs| && Made(s, p) && WriteOf(obj, s, q, n).Some?
    ensures SameMaker(s, WriteOf(obj, s, q, n).value, p)
  {
    if s.procs[q].pc.Compiling? {
      var whole, pc := obj(s.procs[q].hash), s.procs[q].pc;
      MovedMaker(s, s.(data := s.data[pc.dst := WriteAt(Content(s, pc.dst), pc.off, whole[pc.off..pc.off + n])]), q,
                 Compiling(pc.dst, pc.off + n), p);
    } else {
      CopyMade(obj, s, q, n, p);
    }
  }

  lemma CopyMade(obj: Compiler, s: State, q: nat, n: nat, p: nat)
    requires p < |s.procs| && q < |s.procs| && Made(s, p) && WriteOf(obj, s, q, n).Some? && !s.procs[q].pc.Compiling?
    ensures SameMaker(s, WriteOf(obj, s, q, n).value, p)
  {
    var pc := s.procs[q].pc;
    var s1 := s.(data := s.data[pc.dst := WriteAt(Content(s, pc.dst), pc.off, Content(s, pc.src)[pc.off..pc.off + n])]);
    var end := pc.off + n;
    MovedMaker(s, s1, q, if pc.StoreCopying? then StoreCopying(pc.suffix, pc.src, pc.dst, end)
                         else RecoverCopying(pc.src, pc.dst, end), p);
  }

  lemma {:induction false} MadeUntilReplaced(obj: Compiler, s: State, p: nat, run: seq<Event>)
    requires p < |s.procs| && Made(s, p) && Exec(obj, s, run).Some? && NeverReplaced(obj, s, run, s.procs[p].out)
    ensures SameMaker(s, Exec(obj, s, run).value, p)
    decreases |run|
  {
    if run != [] {
      StillMade(obj, s, run[0], p);
      MadeUntilReplaced(obj, Apply(obj, s, run[0]).value, p, run[1..]);
    }
  }

  /** So from the moment a process has opened or linked its output, over every run that does not replace the output, it
      is right whenever the process is done. */
  lemma TransparentUntilReplaced(obj: Compiler, s: State, p: nat, run: seq<Event>)
    requires Reachable(obj, s) && p < |s.procs| && Made(s, p)
    requires DisciplinedRun(obj, s, run) && Exec(obj, s, run).Some? && NeverReplaced(obj, s, run, s.procs[p].out)
    ensures
      var s' := Exec(obj, s, run).value;
      var Proc(h, o, _, _, _) := s.procs[p];
      p < |s'.procs| && (s'.procs[p].pc.Done? ==>
        o in s'.outputs && (ReadOutput(s', o) == Some(obj(h)) <==> !(s'.outputs[o].Link? && h !in s'.entries)))
  {
    MadeUntilReplaced(obj, s, p, run);
    ReachableAfter(obj, s, run);
    var s' := Exec(obj, s, run).value;
    if s'.procs[p].pc.Done? {
      Transparent(obj, s', p);
    }
  }

  lemma ReachableAfter(obj: Compiler, s: State, run: seq<Event>)
    requires Reachable(obj, s) && DisciplinedRun(obj, s, run) && Exec(obj, s, run).Some?
    ensures Reachable(obj, Exec(obj, s, run).value)
  {
    var s0, before :| Initial(s0) && DisciplinedRun(obj, s0, before) && Exec(obj, s0, before) == Some(s);
    ExecConcat(obj, s0, before, run);
    DisciplinedConcat(obj, s0, before, run);
    assert DisciplinedRun(obj, s0, before + run);
  }

  // ---------------------------------------------------------------- when an output is opened in place or removed

  /** Opening an output to write an object or a recovered copy does not remove the old one first. From a state in order,
      everything is intact afterwards if and only if the old output is absent, or a regular file that is no entry's,
      that no process needs, and that is left to the user under no other name. */
  lemma OpeningOutputExact(obj: Compiler, s: State, p: nat)
    requires p < |s.procs| && Opening(s.procs[p].pc)
    requires forall h :: obj(h) != []
    requires Inv(obj, s)
    ensures Intact(obj, StepOf(obj, s, p).value) <==> OutputFree(s, p)
  {
    if OutputFree(s, p) {
      var open := WithPc(Opened(s, p), p, OpenedPc(s.procs[p].pc, OpenForWrite(s, s.procs[p].out).1));
      OpeningMakes(obj, s, p);
      KeptByOpen(obj, s, p);
      InvIntact(obj, open);
    } else {
      NotFree(obj, s, p);
    }
  }

  /** Removing the old output, after parsing or before a retrieval, leaves everything intact if and only if no process is
      still going to read it. */
  lemma RemovingOutputExact(obj: Compiler, s: State, p: nat)
    requires p < |s.procs| && Removing(s.procs[p].pc)
    requires Inv(obj, s)
    ensures Intact(obj, StepOf(obj, s, p).value) <==> RemovalFree(s, p)
  {
    var s' := WithPc(Removed(s, s.procs[p].out), p, RemovedPc(s.procs[p].pc));
    RemovingGoes(obj, s, p);
    if RemovalFree(s, p) {
      KeptByRemoveOutput(obj, s, p);
      InvIntact(obj, s');
    } else {
      var q :| 0 <= q < |s.procs| && s.procs[q].out == s.procs[p].out && NeedsOutput(s.procs[q].pc);
      assert s'.procs[q] == s.procs[q] && !Served(obj, s', q);
    }
  }

  lemma NotFree(obj: Compiler, s: State, p: nat)
    requires p < |s.procs| && Opening(s.procs[p].pc) && !OutputFree(s, p)
    requires forall h :: obj(h) != []
    requires Inv(obj, s)
    ensures !Intact(obj, StepOf(obj, s, p).value)
  {
    var o := s.procs[p].out;
    if s.outputs[o].Link? {
      EntryEmptied(obj, s, p, s.outputs[o].hash);
    } else if h :| h in s.entries && s.outputs[o] == File(s.entries[h]) {
      EntryEmptied(obj, s, p, h);
    } else {
      var i := s.outputs[o].ino;
      var q :| 0 <= q < |s.procs| && (Holds(s, q, i) || (s.procs[q].out != o && Keeps(s, q, i)));
      ProcInOrder(obj, s, q);
      ReliedIsEmptied(obj, s, p, q, i);
    }
  }

  /** An output that is a link, or an entry's file, is opened. */
  lemma EntryEmptied(obj: Compiler, s: State, p: nat, h: Hash)
    requires p < |s.procs| && Opening(s.procs[p].pc) && obj(h) != [] && s.procs[p].out in s.outputs
    requires
      var node := s.outputs[s.procs[p].out];
      node == Link(h) || (h in s.entries && node == File(s.entries[h]))
    ensures !EntriesComplete(obj, StepOf(obj, s, p).value)
  {
    OpeningMakes(obj, s, p);
    var s1 := Opened(s, p);
    assert h in s1.entries && Content(s1, s1.entries[h]) == [];
    assert Content(StepOf(obj, s, p).value, s1.entries[h]) == [];
  }

  lemma OpensInPlace(obj: Compiler, s: State, p: nat, i: Ino)
    requires p < |s.procs| && Opening(s.procs[p].pc)
    requires s.procs[p].out in s.outputs && s.outputs[s.procs[p].out] == File(i)
    ensures StepOf(obj, s, p) == Some(WithPc(MadeBy(Emptied(s, i), p), p, OpenedPc(s.procs[p].pc, i)))
  {
  }

  /** A process that relies on the file finds it empty. */
  lemma ReliedIsEmptied(obj: Compiler, s: State, p: nat, q: nat, i: Ino)
    requires p < |s.procs| && Opening(s.procs[p].pc) && q < |s.procs| && ProcOk(obj, s, q)
    requires Holds(s, q, i) || (s.procs[q].out != s.procs[p].out && Keeps(s, q, i))
    requires s.procs[p].out in s.outputs && s.outputs[s.procs[p].out] == File(i)
    requires forall h :: obj(h) != []
    ensures !Intact(obj, StepOf(obj, s, p).value)
  {
    OpensInPlace(obj, s, p, i);
    var s' := WithPc(MadeBy(Emptied(s, i), p), p, OpenedPc(s.procs[p].pc, i));
    assert Content(s', i) == [];
    if q == p {
      assert !Served(obj, s', p);
    } else {
      assert s'.procs[q] == s.procs[q];
      EmptiedForOther(obj, s, s', p, q, i);
    }
  }

  lemma EmptiedForOther(obj: Compiler, s: State, s': State, p: nat, q: nat, i: Ino)
    requires p < |s.procs| == |s'.procs| && q < |s.procs| && q != p && s'.procs[q] == s.procs[q]
    requires Writing(s'.procs[p].pc) && s'.procs[p].pc.dst == i && Content(s', i) == []
    requires s'.outputs == s.outputs && s'.temps == s.temps && ProcOk(obj, s, q)
    requires Holds(s, q, i) || (Made(s', q) && Keeps(s, q, i))
    requires forall h :: obj(h) != []
    ensures !Intact(obj, s')
  {
    var pc := s.procs[q].pc;
    if Writing(pc) && pc.dst == i {
      assert !WritersApart(s');
    } else {
      assert !Served(obj, s', q);
    }
  }

  // ---------------------------------------------------------------- when a temporary name is used twice

  /** The pruner deletes temporary files that are in use, so a `unique` name may be chosen again while a process
      still holds it. From a state in order, a new temporary file leads to a run that exposes an incomplete
      entry if and only if another process holds its name. */
  lemma TempReuseExact(obj: Compiler, s: State, p: nat, t: string)
    requires Inv(obj, s) && Apply(obj, s, CreateTemp(p, t)).Some?
    requires obj(s.procs[p].hash) != []
    ensures
      var s' := Apply(obj, s, CreateTemp(p, t)).value;
      var temp := TempName(s.procs[p].hash, t);
      (exists q :: 0 <= q < |s.procs| && q != p && Held(s.procs[q]) == Some(temp)) <==>
      (exists run :: DisciplinedRun(obj, s', run) && Exec(obj, s', run).Some?
        && !EntriesComplete(obj, Exec(obj, s', run).value))
  {
    var s' := Apply(obj, s, CreateTemp(p, t)).value;
    var temp := TempName(s.procs[p].hash, t);
    if q :| 0 <= q < |s.procs| && q != p && Held(s.procs[q]) == Some(temp) {
      var run := ReuseRun(obj, s, p, t, q);
      assert DisciplinedRun(obj, s', run) && !EntriesComplete(obj, Exec(obj, s', run).value);
    } else {
      Kept(obj, s, CreateTemp(p, t));
      forall run | DisciplinedRun(obj, s', run) && Exec(obj, s', run).Some?
        ensures EntriesComplete(obj, Exec(obj, s', run).value)
      {
        RunKeeps(obj, s', run);
        InvIntact(obj, Exec(obj, s', run).value);
      }
    }
  }

  // ---- a run in which process q makes the file emptied by process p the entry

  lemma {:induction false} ExecConcat(obj: Compiler, s: State, a: seq<Event>, b: seq<Event>)
    requires Exec(obj, s, a).Some?
    ensures Exec(obj, s, a + b) == Exec(obj, Exec(obj, s, a).value, b)
    decreases |a|
  {
    if a == [] {
      assert a + b == b;
    } else {
      assert (a + b)[1..] == a[1..] + b;
      ExecConcat(obj, Apply(obj, s, a[0]).value, a[1..], b);
    }
  }

  lemma ExecOne(obj: Compiler, s: State, e: Event, rest: seq<Event>)
    ensures Exec(obj, s, [e] + rest) ==
      match Apply(obj, s, e) case None => None case Some(s') => Exec(obj, s', rest)
    ensures Disciplined(s, e) && (Apply(obj, s, e).Some? ==> DisciplinedRun(obj, Apply(obj, s, e).value, rest)) ==>
      DisciplinedRun(obj, s, [e] + rest)
  {
    assert ([e] + rest)[1..] == rest;
  }

  lemma {:induction false} DisciplinedConcat(obj: Compiler, s: State, a: seq<Event>, b: seq<Event>)
    requires DisciplinedRun(obj, s, a) && Exec(obj, s, a).Some?
    requires DisciplinedRun(obj, Exec(obj, s, a).value, b)
    ensures DisciplinedRun(obj, s, a + b)
    decreases |a|
  {
    if a == [] {
      assert a + b == b;
    } else {
      assert (a + b)[1..] == a[1..] + b;
      DisciplinedConcat(obj, Apply(obj, s, a[0]).value, a[1..], b);
    }
  }

  /** Process p is about to store through the temporary file i, whose name process q holds too. */
  ghost predicate Clash(s: State, p: nat, t: string, q: nat, i: Ino) {
    && p < |s.procs| && q < |s.procs| && p != q
    && s.procs[p].pc == TempMade(t) && Resolve(s, s.procs[p].out).Some?
    && s.procs[q].hash == s.procs[p].hash
    && TempName(s.procs[p].hash, t) in s.temps && s.temps[TempName(s.procs[p].hash, t)] == i
  }

  lemma ClashSteps(obj: Compiler, s: State, p: nat, t: string, q: nat, i: Ino)
    requires Clash(s, p, t, q, i)
    ensures
      var s1 := StepOf(obj, s, p);
      && s1.Some? && s1.value.procs[p].pc.Storing?
      && var s2 := StepOf(obj, s1.value, p);
         s2.Some? && s2.value.procs[q] == s.procs[q] && s2.value.temps == s.temps && Content(s2.value, i) == []
  {
  }

  lemma RenameExposes(obj: Compiler, s: State, t: string, q: nat, i: Ino)
    requires q < |s.procs| && s.procs[q].pc == Renaming(t) && obj(s.procs[q].hash) != []
    requires TempName(s.procs[q].hash, t) in s.temps && s.temps[TempName(s.procs[q].hash, t)] == i && Content(s, i) == []
    ensures StepOf(obj, s, q).Some? && !EntriesComplete(obj, StepOf(obj, s, q).value)
  {
    var s' := StepOf(obj, s, q).value;
    assert s'.entries[s.procs[q].hash] == i && Content(s', i) == [];
  }

  /** If q is about to rename, p empties the file and then q makes it the entry. */
  lemma ClashExposes(obj: Compiler, s: State, p: nat, t: string, q: nat, i: Ino)
    requires Clash(s, p, t, q, i) && s.procs[q].pc == Renaming(t) && obj(s.procs[p].hash) != []
    ensures
      var end := Exec(obj, s, [Step(p), Step(p), Step(q)]);
      DisciplinedRun(obj, s, [Step(p), Step(p), Step(q)]) && end.Some? && !EntriesComplete(obj, end.value)
  {
    ClashSteps(obj, s, p, t, q, i);
    var s1 := StepOf(obj, s, p).value;
    var s2 := StepOf(obj, s1, p).value;
    RenameExposes(obj, s2, t, q, i);
    ThreeEvents(obj, s, Step(p), s1, Step(p), s2, Step(q), StepOf(obj, s2, q).value);
  }

  lemma ThreeEvents(obj: Compiler, s: State, e1: Event, s1: State, e2: Event, s2: State, e3: Event, s3: State)
    requires Apply(obj, s, e1) == Some(s1) && Apply(obj, s1, e2) == Some(s2) && Apply(obj, s2, e3) == Some(s3)
    requires Disciplined(s, e1) && Disciplined(s1, e2) && Disciplined(s2, e3)
    ensures DisciplinedRun(obj, s, [e1, e2, e3]) && Exec(obj, s, [e1, e2, e3]) == Some(s3)
  {
    assert Exec(obj, s3, []) == Some(s3) && DisciplinedRun(obj, s3, []);
    ExecOne(obj, s2, e3, []);
    ExecOne(obj, s1, e2, [e3] + []);
    ExecOne(obj, s, e1, [e2] + ([e3] + []));
    assert [e1] + ([e2] + ([e3] + [])) == [e1, e2, e3];
  }

  /** A process copying to a temporary file can get to the rename. */
  lemma FinishCopy(obj: Compiler, s: State, p: nat, t: string, q: nat, i: Ino) returns (run: seq<Event>)
    requires Clash(s, p, t, q, i) && s.procs[q].pc.StoreCopying? && s.procs[q].pc.suffix == t
    requires var pc := s.procs[q].pc; pc.src != pc.dst && pc.off <= |Content(s, pc.src)|
    ensures DisciplinedRun(obj, s, run) && Exec(obj, s, run).Some?
    ensures var s' := Exec(obj, s, run).value;
      Clash(s', p, t, q, i) && s'.procs[q].pc == Renaming(t) && s'.procs[p] == s.procs[p]
  {
    var pc := s.procs[q].pc;
    var n := |Content(s, pc.src)| - pc.off;
    run := [Write(q, n), Step(q)];
    var s1 := WriteOf(obj, s, q, n).value;
    var s2 := StepOf(obj, s1, q).value;
    ExecOne(obj, s, Write(q, n), [Step(q)]);
    ExecOne(obj, s1, Step(q), []);
    assert [Write(q, n)] + [Step(q)] == run;
    assert [Step(q)] + [] == [Step(q)];
  }

  lemma OpenThenFinish(obj: Compiler, s: State, p: nat, t: string, q: nat, i: Ino) returns (run: seq<Event>)
    requires Clash(s, p, t, q, i) && s.procs[q].pc.Storing? && s.procs[q].pc.suffix == t && s.procs[q].pc.src != i
    ensures DisciplinedRun(obj, s, run) && Exec(obj, s, run).Some?
    ensures var s' := Exec(obj, s, run).value;
      Clash(s', p, t, q, i) && s'.procs[q].pc == Renaming(t) && s'.procs[p] == s.procs[p]
  {
    var s1 := StepOf(obj, s, q).value;
    var more := FinishCopy(obj, s1, p, t, q, i);
    ExecOne(obj, s, Step(q), more);
    run := [Step(q)] + more;
  }

  /** Process q reads its object from a file other than i, or has read it. */
  ghost predicate OnItsWay(s: State, q: nat, i: Ino)
    requires q < |s.procs|
  {
    var pc := s.procs[q].pc;
    && (pc.TempMade? ==> Resolve(s, s.procs[q].out).Some? && Resolve(s, s.procs[q].out) != Some(i))
    && (pc.Storing? ==> pc.src != i)
    && (pc.StoreCopying? ==> pc.src != pc.dst && pc.off <= |Content(s, pc.src)|)
  }

  lemma ReachRename(obj: Compiler, s: State, p: nat, t: string, q: nat, i: Ino) returns (run: seq<Event>)
    requires Clash(s, p, t, q, i) && Held(s.procs[q]) == Some(TempName(s.procs[p].hash, t))
    requires OnItsWay(s, q, i)
    ensures DisciplinedRun(obj, s, run) && Exec(obj, s, run).Some?
    ensures var s' := Exec(obj, s, run).value;
      Clash(s', p, t, q, i) && s'.procs[q].pc == Renaming(t) && s'.procs[p] == s.procs[p]
  {
    match s.procs[q].pc
    case TempMade(_) =>
      var s1 := StepOf(obj, s, q).value;
      var more := OpenThenFinish(obj, s1, p, t, q, i);
      ExecOne(obj, s, Step(q), more);
      run := [Step(q)] + more;
    case Storing(_, _) => run := OpenThenFinish(obj, s, p, t, q, i);
    case StoreCopying(_, _, _, _) => run := FinishCopy(obj, s, p, t, q, i);
    case Renaming(_) => run := [];
  }

  lemma ReuseRun(obj: Compiler, s: State, p: nat, t: string, q: nat) returns (run: seq<Event>)
    requires Inv(obj, s) && Apply(obj, s, CreateTemp(p, t)).Some? && obj(s.procs[p].hash) != []
    requires q < |s.procs| && q != p && Held(s.procs[q]) == Some(TempName(s.procs[p].hash, t))
    ensures
      var s' := Apply(obj, s, CreateTemp(p, t)).value;
      && DisciplinedRun(obj, s', run) && Exec(obj, s', run).Some?
      && !EntriesComplete(obj, Exec(obj, s', run).value)
  {
    var s' := Apply(obj, s, CreateTemp(p, t)).value;
    AfterReuse(obj, s, p, t, q);
    var first := ReachRename(obj, s', p, t, q, s.next);
    var middle := Exec(obj, s', first).value;
    ClashExposes(obj, middle, p, t, q, s.next);
    run := first + [Step(p), Step(p), Step(q)];
    ExecConcat(obj, s', first, [Step(p), Step(p), Step(q)]);
    DisciplinedConcat(obj, s', first, [Step(p), Step(p), Step(q)]);
  }

  lemma AfterReuse(obj: Compiler, s: State, p: nat, t: string, q: nat)
    requires Inv(obj, s) && Apply(obj, s, CreateTemp(p, t)).Some?
    requires q < |s.procs| && q != p && Held(s.procs[q]) == Some(TempName(s.procs[p].hash, t))
    ensures
      var s' := Apply(obj, s, CreateTemp(p, t)).value;
      Clash(s', p, t, q, s.next) && s'.procs[q] == s.procs[q] && OnItsWay(s', q, s.next)
  {
    assert ProcOk(obj, s, p) && ProcOk(obj, s, q);
  }
}
