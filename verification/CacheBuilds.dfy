/** Ordinary builds, in which running processes have outputs of their own: for them the guards on opening and removing
    outputs always hold, because the driver deletes the old output of a source file first. */
module CacheBuilds {

  import opened CacheProtocol
  import opened CacheRuns
  import opened Common

  /** A process starts for an output that no running process has, and that is deleted first or absent. The only other thing
      asked for is a unique temporary name; nothing is asked of the steps that open or remove an output. */
  ghost predicate Ordinary(s: State, e: Event) {
    match e
    case Spawn(_, o, _, source) => (source || o !in s.outputs) && forall q <- s.procs :: q.out == o ==> Terminated(q.pc)
    case CreateTemp(_, _) => Disciplined(s, e)
    case _ => true
  }

  ghost predicate OrdinaryRun(obj: Compiler, s: State, events: seq<Event>)
    decreases |events|
  {
    events != [] ==>
      && Ordinary(s, events[0])
      && (Apply(obj, s, events[0]).Some? ==> OrdinaryRun(obj, Apply(obj, s, events[0]).value, events[1..]))
  }

  ghost predicate Built(obj: Compiler, s: State) {
    exists s0, events :: Initial(s0) && OrdinaryRun(obj, s0, events) && Exec(obj, s0, events) == Some(s)
  }

  // ---------------------------------------------------------------- the state of the outputs

  /** A process whose old output is gone and that has not made a new one. */
  predicate Waits(pc: Pc) {
    pc.Start? || pc.Missed? || pc.Hit? || pc.Fetching? || pc.Recovering?
  }

  predicate HasOutput(pc: Pc) {
    NeedsOutput(pc) || LeavesOutput(pc)
  }

  /** No later process has the same output. */
  ghost predicate Latest(s: State, p: nat)
    requires p < |s.procs|
  {
    forall q :: p < q < |s.procs| ==> s.procs[q].out != s.procs[p].out
  }

  ghost predicate Separate(s: State) {
    forall p, q :: 0 <= p < q < |s.procs| && s.procs[p].out == s.procs[q].out ==> Terminated(s.procs[p].pc)
  }

  /** The output of a process at its point is absent, or its own. */
  ghost predicate OutputFits(s: State, p: nat)
    requires p < |s.procs|
  {
    && (Waits(s.procs[p].pc) ==> s.procs[p].out !in s.outputs)
    && (HasOutput(s.procs[p].pc) ==> Made(s, p))
  }

  ghost predicate Tidy(s: State) {
    Separate(s) && forall p :: 0 <= p < |s.procs| && Latest(s, p) ==> OutputFits(s, p)
  }

  /** Process p moves, and no output but its own is touched. */
  ghost predicate OnlyOwn(s: State, s': State, p: nat)
    requires p < |s.procs|
  {
    && |s'.procs| == |s.procs| && s'.procs[p].(pc := s.procs[p].pc) == s.procs[p]
    && (forall q :: 0 <= q < |s.procs| && q != p ==> s'.procs[q] == s.procs[q])
    && (forall o :: o != s.procs[p].out ==>
          (o in s.outputs <==> o in s'.outputs) && (o in s.maker <==> o in s'.maker) &&
          (o in s.maker ==> s'.maker[o] == s.maker[o]))
  }

  /** A step that touches no output but its own, and leaves that in order. */
  ghost predicate Fits(s: State, s': State, p: nat)
    requires p < |s.procs|
  {
    OnlyOwn(s, s', p) && (OutputFits(s, p) ==> OutputFits(s', p))
  }

  // ---------------------------------------------------------------- every step touches its own output only

  lemma MovedFits(s: State, p: nat, to: Pc)
    requires p < |s.procs|
    requires (Waits(to) ==> Waits(s.procs[p].pc)) && (HasOutput(to) ==> HasOutput(s.procs[p].pc))
    ensures Fits(s, WithPc(s, p, to), p)
  {
  }

  /** Editing files other than outputs makes no difference. */
  lemma EditedFits(s: State, s1: State, p: nat, to: Pc)
    requires p < |s.procs| && s1.procs == s.procs && s1.outputs == s.outputs && s1.maker == s.maker
    requires (Waits(to) ==> Waits(s.procs[p].pc)) && (HasOutput(to) ==> HasOutput(s.procs[p].pc))
    ensures Fits(s, WithPc(s1, p, to), p)
  {
    assert WithPc(s1, p, to).procs == WithPc(s, p, to).procs;
  }

  lemma OpenedOutputs(s: State, p: nat)
    requires p < |s.procs|
    ensures Opened(s, p).procs == s.procs && Opened(s, p).maker == s.maker[s.procs[p].out := p]
    ensures Opened(s, p).outputs == s.outputs || Opened(s, p).outputs == s.outputs[s.procs[p].out := File(s.next)]
  {
    if s.procs[p].out in s.outputs {
      OldOutputs(s, s.procs[p].out);
    }
  }

  lemma OldOutputs(s: State, o: Path)
    requires o in s.outputs
    ensures OpenForWrite(s, o).0 == s.(entries := OpenForWrite(s, o).0.entries, data := OpenForWrite(s, o).0.data,
                                       next := OpenForWrite(s, o).0.next, sealed := OpenForWrite(s, o).0.sealed)
  {
  }

  lemma OpenedFits(s: State, s1: State, p: nat, to: Pc)
    requires p < |s.procs| && !Waits(to) && s1.procs == s.procs && s1.maker == s.maker[s.procs[p].out := p]
    requires s1.outputs == s.outputs || s1.outputs == s.outputs[s.procs[p].out := File(s.next)]
    ensures Fits(s, WithPc(s1, p, to), p)
  {
  }

  lemma RemovedFits(s: State, p: nat, to: Pc)
    requires p < |s.procs| && !HasOutput(to)
    ensures Fits(s, WithPc(Removed(s, s.procs[p].out), p, to), p)
  {
  }

  lemma BoundFits(s: State, p: nat, node: Node)
    requires p < |s.procs|
    ensures Fits(s, WithPc(Bound(s, p, node), p, Touching), p)
  {
  }

  lemma FetchFits(obj: Compiler, s: State, p: nat)
    requires p < |s.procs| && s.procs[p].pc.Fetching?
    ensures Fits(s, StepOf(obj, s, p).value, p)
  {
    var Proc(h, o, mode, _, _) := s.procs[p];
    if mode != Copy && o !in s.outputs && (mode.HardLink? ==> h in s.entries) {
      LinkingMakes(obj, s, p);
      BoundFits(s, p, if mode.HardLink? then File(s.entries[h]) else Link(h));
    } else {
      var to := if mode == Copy && h in s.entries then Recovering(s.entries[h]) else Stopped;
      FetchedNothing(obj, s, p, to);
      MovedFits(s, p, to);
    }
  }

  lemma TempFits(obj: Compiler, s: State, p: nat)
    requires p < |s.procs| && (s.procs[p].pc.Storing? || s.procs[p].pc.Renaming?)
    ensures Fits(s, StepOf(obj, s, p).value, p)
  {
    var pc := s.procs[p].pc;
    var temp := TempName(s.procs[p].hash, pc.suffix);
    if pc.Storing? {
      if temp in s.temps {
        EditedFits(s, s.(data := s.data[s.temps[temp] := []]), p, StoreCopying(pc.suffix, pc.src, s.temps[temp], 0));
      } else {
        EditedFits(s, CreateTempFile(s, temp), p, StoreCopying(pc.suffix, pc.src, s.next, 0));
      }
    } else if temp in s.temps {
      EditedFits(s, Publish(s, temp), p, Done);
    } else {
      MovedFits(s, p, Stopped);
    }
  }

  lemma StepFits(obj: Compiler, s: State, p: nat)
    requires p < |s.procs| && StepOf(obj, s, p).Some?
    ensures Fits(s, StepOf(obj, s, p).value, p)
  {
    var pc := s.procs[p].pc;
    if Writing(pc) {
      WritingGoes(obj, s, p);
      MovedFits(s, p, EndPc(pc));
    } else if Quiet(pc) {
      OthersGo(obj, s, p);
      MovedFits(s, p, NextPc(s, p));
    } else if Opening(pc) {
      OpeningMakes(obj, s, p);
      OpenedOutputs(s, p);
      OpenedFits(s, Opened(s, p), p, OpenedPc(pc, OpenForWrite(s, s.procs[p].out).1));
    } else if Removing(pc) {
      RemovingGoes(obj, s, p);
      RemovedFits(s, p, RemovedPc(pc));
    } else if pc.Fetching? {
      FetchFits(obj, s, p);
    } else {
      TempFits(obj, s, p);
    }
  }

  lemma WriteFits(obj: Compiler, s: State, p: nat, n: nat)
    requires p < |s.procs| && WriteOf(obj, s, p, n).Some?
    ensures Fits(s, WriteOf(obj, s, p, n).value, p)
  {
    if s.procs[p].pc.Compiling? {
      ObjectFits(obj, s, p, n);
    } else if s.procs[p].pc.StoreCopying? {
      StoreFits(obj, s, p, n);
    } else {
      RecoveryFits(obj, s, p, n);
    }
  }

  lemma ObjectFits(obj: Compiler, s: State, p: nat, n: nat)
    requires p < |s.procs| && s.procs[p].pc.Compiling? && WriteOf(obj, s, p, n).Some?
    ensures Fits(s, WriteOf(obj, s, p, n).value, p)
  {
    var whole, pc := obj(s.procs[p].hash), s.procs[p].pc;
    EditedFits(s, s.(data := s.data[pc.dst := WriteAt(Content(s, pc.dst), pc.off, whole[pc.off..pc.off + n])]), p,
               Compiling(pc.dst, pc.off + n));
  }

  /** A chunk of the source has been copied. */
  function Copied(s: State, src: Ino, dst: Ino, off: nat, n: nat): State
    requires off + n <= |Content(s, src)|
  {
    s.(data := s.data[dst := WriteAt(Content(s, dst), off, Content(s, src)[off..off + n])])
  }

  lemma StoreFits(obj: Compiler, s: State, p: nat, n: nat)
    requires p < |s.procs| && s.procs[p].pc.StoreCopying? && WriteOf(obj, s, p, n).Some?
    ensures Fits(s, WriteOf(obj, s, p, n).value, p)
  {
    var StoreCopying(t, src, dst, off) := s.procs[p].pc;
    EditedFits(s, Copied(s, src, dst, off, n), p, StoreCopying(t, src, dst, off + n));
  }

  lemma RecoveryFits(obj: Compiler, s: State, p: nat, n: nat)
    requires p < |s.procs| && s.procs[p].pc.RecoverCopying? && WriteOf(obj, s, p, n).Some?
    ensures Fits(s, WriteOf(obj, s, p, n).value, p)
  {
    var RecoverCopying(src, dst, off) := s.procs[p].pc;
    EditedFits(s, Copied(s, src, dst, off, n), p, RecoverCopying(src, dst, off + n));
  }

  // ---------------------------------------------------------------- ordinary runs are disciplined

  /** What process p does leaves the outputs of all processes in order. */
  lemma FitsTidy(s: State, s': State, p: nat)
    requires Tidy(s) && p < |s.procs| && !Terminated(s.procs[p].pc) && Fits(s, s', p)
    ensures Tidy(s')
  {
    assert Latest(s, p);
    forall q, r | 0 <= q < r < |s'.procs| && s'.procs[q].out == s'.procs[r].out ensures Terminated(s'.procs[q].pc) {
      assert s.procs[q].out == s.procs[r].out;
    }
    forall q | 0 <= q < |s'.procs| && Latest(s', q) ensures OutputFits(s', q) {
      assert forall r :: 0 <= r < |s.procs| ==> s.procs[r].out == s'.procs[r].out;
      assert Latest(s, q);
    }
  }

  lemma SpawnTidy(s: State, proc: Proc)
    requires Tidy(s) && (forall q <- s.procs :: q.out == proc.out ==> Terminated(q.pc))
    requires proc.pc.Deleting? || (proc.pc.Start? && proc.out !in s.outputs)
    ensures Tidy(s.(procs := s.procs + [proc]))
  {
    var s' := s.(procs := s.procs + [proc]);
    var n := |s.procs|;
    forall q, r | 0 <= q < r < |s'.procs| && s'.procs[q].out == s'.procs[r].out ensures Terminated(s'.procs[q].pc) {
      assert s'.procs[q] == s.procs[q];
      if r == n { assert s.procs[q] in s.procs; }
    }
    forall q | 0 <= q < |s'.procs| && Latest(s', q) ensures OutputFits(s', q) {
      if q < n {
        assert s'.procs[q] == s.procs[q];
        assert forall r :: q < r < n ==> s.procs[r] == s'.procs[r];
        assert Latest(s, q);
      }
    }
  }

  lemma PruneTidy(s: State, s': State)
    requires Tidy(s) && s'.procs == s.procs && s'.outputs == s.outputs && s'.maker == s.maker
    ensures Tidy(s')
  {
    forall q | 0 <= q < |s'.procs| && Latest(s', q) ensures OutputFits(s', q) {
      assert Latest(s, q);
    }
  }

  lemma TidyKept(obj: Compiler, s: State, e: Event)
    requires Tidy(s) && Ordinary(s, e) && Apply(obj, s, e).Some?
    ensures Tidy(Apply(obj, s, e).value)
  {
    match e
    case Spawn(h, o, mode, source) => SpawnTidy(s, NewProc(h, o, mode, source));
    case Step(p) =>
      StepFits(obj, s, p);
      FitsTidy(s, Apply(obj, s, e).value, p);
    case Write(p, n) =>
      WriteFits(obj, s, p, n);
      FitsTidy(s, Apply(obj, s, e).value, p);
    case CreateTemp(p, t) =>
      EditedFits(s, CreateTempFile(s, TempName(s.procs[p].hash, t)), p, TempMade(t));
      FitsTidy(s, Apply(obj, s, e).value, p);
    case Stop(p) =>
      MovedFits(s, p, Stopped);
      FitsTidy(s, Apply(obj, s, e).value, p);
    case PruneEntry(_) => PruneTidy(s, Apply(obj, s, e).value);
    case PruneTemp(_) => PruneTidy(s, Apply(obj, s, e).value);
  }

  /** In an ordinary build every output is free when it is opened, and needed by nobody when it is removed. */
  lemma GuardsHold(s: State, p: nat)
    requires Tidy(s) && p < |s.procs|
    ensures Opening(s.procs[p].pc) ==> OutputFree(s, p)
    ensures Removing(s.procs[p].pc) ==> RemovalFree(s, p)
  {
    if !Terminated(s.procs[p].pc) {
      assert Latest(s, p) && OutputFits(s, p);
      forall q | 0 <= q < |s.procs| && s.procs[q].out == s.procs[p].out && q != p ensures !NeedsOutput(s.procs[q].pc) {
        assert q < p;
      }
    }
  }

  lemma {:induction false} OrdinaryIsDisciplined(obj: Compiler, s: State, events: seq<Event>)
    requires Tidy(s) && OrdinaryRun(obj, s, events) && Exec(obj, s, events).Some?
    ensures DisciplinedRun(obj, s, events) && Tidy(Exec(obj, s, events).value)
    decreases |events|
  {
    if events != [] {
      var e := events[0];
      if e.Step? && e.p < |s.procs| { GuardsHold(s, e.p); }
      TidyKept(obj, s, e);
      OrdinaryIsDisciplined(obj, Apply(obj, s, e).value, events[1..]);
    }
  }

  lemma BuiltReachable(obj: Compiler, s: State)
    requires Built(obj, s)
    ensures Reachable(obj, s) && Tidy(s)
  {
    var s0, events :| Initial(s0) && OrdinaryRun(obj, s0, events) && Exec(obj, s0, events) == Some(s);
    OrdinaryIsDisciplined(obj, s0, events);
  }

  // ---------------------------------------------------------------- safety and transparency of ordinary builds

  /** Whatever was at the output paths before, and however builds follow each other or overlap, no entry is ever
      incomplete, no entry's file is open for writing, and nothing a process relies on is disturbed. */
  lemma BuildsAreSafe(obj: Compiler, s: State)
    requires Built(obj, s)
    ensures Intact(obj, s)
    ensures forall p <- s.procs, h <- s.entries :: Writing(p.pc) ==> p.pc.dst != s.entries[h]
  {
    BuiltReachable(obj, s);
    EntriesAlwaysComplete(obj, s);
  }

  /** The output of the last process for it, once that is done, reads as the uncached compilation would give, exactly
      unless it is a symbolic link whose entry was pruned. */
  lemma BuildsAreTransparent(obj: Compiler, s: State, p: nat)
    requires Built(obj, s) && p < |s.procs| && s.procs[p].pc.Done? && Latest(s, p)
    ensures
      var Proc(h, o, _, _, _) := s.procs[p];
      o in s.outputs && (ReadOutput(s, o) == Some(obj(h)) <==> !(s.outputs[o].Link? && h !in s.entries))
  {
    BuiltReachable(obj, s);
    Transparent(obj, s, p);
  }
}
