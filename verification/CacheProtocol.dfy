/** The IR-to-object cache shared by concurrent compiler processes (driver/cache.cpp, driver/toobj.cpp).

    A state holds the cache directory (entries and temporary files), the output files outside of it, the
    contents of the files, and the processes. An event is one small step of one process, of the pruner, or
    the end of a process at an arbitrary point. A run is a sequence of events, so any interleaving of any
    number of processes is a run. */
module CacheProtocol {

  import opened Common

  type Hash = string
  type Path = string
  type Bytes = string
  type Ino = nat

  /** What a compiler produces for a module with a given hash. */
  type Compiler = Hash -> Bytes

  datatype TempName = TempName(hash: Hash, suffix: string)

  /** An output is a regular file or a symbolic link to a cache entry. */
  datatype Node = File(ino: Ino) | Link(hash: Hash)

  datatype Mode = Copy | HardLink | AnyLink | SymLink

  /** Where a process is. A process holding `src` or `dst` has that file open. */
  datatype Pc =
    | Deleting                                          // before deleting the old output of a source file
    | Start                                             // before the lookup
    | Missed                                            // before opening the output to write the object
    | Compiling(dst: Ino, off: nat)                     // writing the object
    | Compiled                                          // before creating a temporary file
    | TempMade(suffix: string)                          // before opening the object to copy it
    | Storing(suffix: string, src: Ino)                 // before opening the temporary file
    | StoreCopying(suffix: string, src: Ino, dst: Ino, off: nat)
    | Renaming(suffix: string)                          // before renaming the temporary file to the entry
    | Hit                                               // before removing the old output
    | Fetching                                          // before opening or linking the entry
    | Recovering(src: Ino)                              // before opening the output to copy the entry
    | RecoverCopying(src: Ino, dst: Ino, off: nat)
    | Touching                                          // before setting the entry's times
    | Done
    | Stopped                                           // fatal error or crash

  /** A module being compiled by a driver. Those of source files are parsed, and the driver then deletes their old output
      (dmd/main.d:544-545); the one added by -main is not. */
  datatype Proc = Proc(hash: Hash, out: Path, mode: Mode, source: bool, pc: Pc)

  /** `sealed` and `maker` are history variables that no event reads: the files that were made an entry and not opened
      for writing since, and the process that last opened or linked an output that was not removed since. */
  datatype State = State(
    entries: map<Hash, Ino>,
    temps: map<TempName, Ino>,
    outputs: map<Path, Node>,
    data: map<Ino, Bytes>,
    next: Ino,                                          // the number of the next new file
    sealed: map<Ino, Hash>,
    maker: map<Path, nat>,
    procs: seq<Proc>)

  datatype Event =
    | Spawn(hash: Hash, out: Path, mode: Mode, source: bool)
    | Step(p: nat)                                      // the next step of a process
    | Write(p: nat, n: nat)                             // n more bytes through the open file
    | CreateTemp(p: nat, suffix: string)
    | Stop(p: nat)
    | PruneEntry(hash: Hash)
    | PruneTemp(temp: TempName)

  // ---------------------------------------------------------------- file system

  /** Writes a chunk at an offset, filling a gap with zeros. */
  function WriteAt(b: Bytes, off: nat, chunk: Bytes): Bytes {
    if off > |b| then b + seq(off - |b|, _ => '\0') + chunk
    else if off + |chunk| > |b| then b[..off] + chunk
    else b[..off] + chunk + b[off + |chunk|..]
  }

  function Content(s: State, i: Ino): Bytes {
    if i in s.data then s.data[i] else []
  }

  function NewFile(s: State): State {
    s.(data := s.data[s.next := []], next := s.next + 1)
  }

  function Emptied(s: State, i: Ino): State {
    s.(data := s.data[i := []], sealed := s.sealed - {i})
  }

  /** Opens an output for writing: an existing file is emptied in place, a link is followed, and what does
      not exist is created. */
  function OpenForWrite(s: State, o: Path): (State, Ino) {
    if o !in s.outputs then (NewFile(s).(outputs := s.outputs[o := File(s.next)]), s.next)
    else match s.outputs[o]
      case File(i) => (Emptied(s, i), i)
      case Link(h) =>
        if h in s.entries then (Emptied(s, s.entries[h]), s.entries[h])
        else (NewFile(s).(entries := s.entries[h := s.next]), s.next)
  }

  /** The file an output path leads to. */
  function Resolve(s: State, o: Path): Option<Ino> {
    if o !in s.outputs then None
    else match s.outputs[o]
      case File(i) => Some(i)
      case Link(h) => if h in s.entries then Some(s.entries[h]) else None
  }

  /** What reading an output path gives. */
  function ReadOutput(s: State, o: Path): Option<Bytes> {
    match Resolve(s, o)
    case None => None
    case Some(i) => Some(Content(s, i))
  }

  function CreateTempFile(s: State, t: TempName): State {
    NewFile(s).(temps := s.temps[t := s.next])
  }

  // ---------------------------------------------------------------- steps

  predicate Terminated(pc: Pc) {
    pc.Done? || pc.Stopped?
  }

  function WithPc(s: State, p: nat, pc: Pc): State
    requires p < |s.procs|
  {
    s.(procs := s.procs[p := s.procs[p].(pc := pc)])
  }

  /** Process p has made its output. */
  function MadeBy(s: State, p: nat): State
    requires p < |s.procs|
  {
    s.(maker := s.maker[s.procs[p].out := p])
  }

  /** The old output is removed. */
  function Removed(s: State, o: Path): State {
    s.(outputs := s.outputs - {o}, maker := s.maker - {o})
  }

  /** Process p binds its output to an entry or its file. */
  function Bound(s: State, p: nat, node: Node): State
    requires p < |s.procs|
  {
    MadeBy(s.(outputs := s.outputs[s.procs[p].out := node]), p)
  }

  /** The temporary file is opened for the copy; it is created anew if it has been deleted. */
  function OpenTemp(s: State, p: nat, t: string, src: Ino): State
    requires p < |s.procs|
  {
    var temp := TempName(s.procs[p].hash, t);
    if temp in s.temps then WithPc(s.(data := s.data[s.temps[temp] := []]), p, StoreCopying(t, src, s.temps[temp], 0))
    else WithPc(CreateTempFile(s, temp), p, StoreCopying(t, src, s.next, 0))
  }

  /** Retrieval in each of the four modes: opening the entry to copy it, or linking it. */
  function Fetch(s: State, p: nat): State
    requires p < |s.procs|
  {
    var Proc(h, o, mode, _, _) := s.procs[p];
    match mode
    case Copy => WithPc(s, p, if h in s.entries then Recovering(s.entries[h]) else Stopped)
    case HardLink =>
      if h in s.entries && o !in s.outputs then WithPc(Bound(s, p, File(s.entries[h])), p, Touching)
      else WithPc(s, p, Stopped)
    case _ =>
      if o !in s.outputs then WithPc(Bound(s, p, Link(h)), p, Touching) else WithPc(s, p, Stopped)
  }

  function StepOf(obj: Compiler, s: State, p: nat): Option<State>
    requires p < |s.procs|
  {
    var proc := s.procs[p];
    var h, o := proc.hash, proc.out;
    match proc.pc
    case Deleting => Some(WithPc(Removed(s, o), p, Start))
    case Start => Some(WithPc(s, p, if h in s.entries then Hit else Missed))
    case Missed =>
      var (s', dst) := OpenForWrite(s, o);
      Some(WithPc(MadeBy(s', p), p, Compiling(dst, 0)))
    case Compiling(_, off) => if off == |obj(h)| then Some(WithPc(s, p, Compiled)) else None
    case TempMade(t) =>
      Some(WithPc(s, p, match Resolve(s, o) case None => Stopped case Some(src) => Storing(t, src)))
    case Storing(t, src) => Some(OpenTemp(s, p, t, src))
    case StoreCopying(t, src, _, off) => if off >= |Content(s, src)| then Some(WithPc(s, p, Renaming(t))) else None
    case Renaming(t) =>
      var temp := TempName(h, t);
      if temp !in s.temps then Some(WithPc(s, p, Stopped))
      else
        var i := s.temps[temp];
        Some(WithPc(s.(entries := s.entries[h := i], temps := s.temps - {temp}, sealed := s.sealed[i := h]), p, Done))
    case Hit => Some(WithPc(Removed(s, o), p, Fetching))
    case Fetching => Some(Fetch(s, p))
    case Recovering(src) =>
      var (s', dst) := OpenForWrite(s, o);
      Some(WithPc(MadeBy(s', p), p, RecoverCopying(src, dst, 0)))
    case RecoverCopying(src, _, off) => if off >= |Content(s, src)| then Some(WithPc(s, p, Touching)) else None
    case Touching => Some(WithPc(s, p, if h in s.entries then Done else Stopped))
    case _ => None
  }

  function WriteOf(obj: Compiler, s: State, p: nat, n: nat): Option<State>
    requires p < |s.procs|
  {
    match s.procs[p].pc
    case Compiling(dst, off) =>
      var whole := obj(s.procs[p].hash);
      if off + n > |whole| then None
      else Some(WithPc(s.(data := s.data[dst := WriteAt(Content(s, dst), off, whole[off..off + n])]), p, Compiling(dst, off + n)))
    case StoreCopying(t, src, dst, off) =>
      if off + n > |Content(s, src)| then None
      else Some(WithPc(s.(data := s.data[dst := WriteAt(Content(s, dst), off, Content(s, src)[off..off + n])]), p, StoreCopying(t, src, dst, off + n)))
    case RecoverCopying(src, dst, off) =>
      if off + n > |Content(s, src)| then None
      else Some(WithPc(s.(data := s.data[dst := WriteAt(Content(s, dst), off, Content(s, src)[off..off + n])]), p, RecoverCopying(src, dst, off + n)))
    case _ => None
  }

  function NewProc(h: Hash, o: Path, mode: Mode, source: bool): Proc {
    Proc(h, o, mode, source, if source then Deleting else Start)
  }

  /** The state after an event, if the event is possible. */
  function Apply(obj: Compiler, s: State, e: Event): Option<State>
  {
    match e
    case Spawn(h, o, mode, source) => Some(s.(procs := s.procs + [NewProc(h, o, mode, source)]))
    case Step(p) => if p < |s.procs| then StepOf(obj, s, p) else None
    case Write(p, n) => if p < |s.procs| then WriteOf(obj, s, p, n) else None
    case CreateTemp(p, t) =>
      if p < |s.procs| && s.procs[p].pc.Compiled? && TempName(s.procs[p].hash, t) !in s.temps
      then Some(WithPc(CreateTempFile(s, TempName(s.procs[p].hash, t)), p, TempMade(t)))
      else None
    case Stop(p) => if p < |s.procs| && !Terminated(s.procs[p].pc) then Some(WithPc(s, p, Stopped)) else None
    case PruneEntry(h) => if h in s.entries then Some(s.(entries := s.entries - {h})) else None
    case PruneTemp(t) => if t in s.temps then Some(s.(temps := s.temps - {t})) else None
  }

  // ---------------------------------------------------------------- invariant

  /** The names, by kind: entries are sealed files, temporary files are not sealed and share no file with each other
      or with outputs. */
  ghost predicate NamesOk(s: State) {
    && (forall i <- s.sealed :: i < s.next)
    && (forall h <- s.entries :: s.entries[h] in s.sealed && s.sealed[s.entries[h]] == h)
    && (forall t <- s.temps :: s.temps[t] < s.next && s.temps[t] !in s.sealed)
    && (forall t, u :: t in s.temps && u in s.temps && t != u ==> s.temps[t] != s.temps[u])
    && (forall o <- s.outputs :: s.outputs[o].File? ==> s.outputs[o].ino < s.next)
    && (forall o, t :: o in s.outputs && t in s.temps ==> s.outputs[o] != File(s.temps[t]))
  }

  ghost predicate SealedOk(obj: Compiler, s: State) {
    forall i <- s.sealed :: Content(s, i) == obj(s.sealed[i])
  }

  /** The output file of a process that wrote it itself. */
  ghost predicate OwnOutput(s: State, o: Path, i: Ino, content: Bytes) {
    o in s.outputs && s.outputs[o] == File(i) && i !in s.sealed && Content(s, i) == content
  }

  ghost predicate ObjectWritten(obj: Compiler, s: State, proc: Proc) {
    && proc.out in s.outputs && s.outputs[proc.out].File?
    && OwnOutput(s, proc.out, s.outputs[proc.out].ino, obj(proc.hash))
  }

  predicate AnySymLink(mode: Mode) {
    mode.AnyLink? || mode.SymLink?
  }

  /** The output of a finished process: a file with the right content, or a link to the right entry. */
  ghost predicate OutputGood(obj: Compiler, s: State, proc: Proc) {
    && proc.out in s.outputs
    && match s.outputs[proc.out]
       case File(i) => i < s.next && Content(s, i) == obj(proc.hash)
       case Link(h) => h == proc.hash && AnySymLink(proc.mode)
  }

  /** Process p was the last to open or link its output, and it has not been removed since. */
  predicate Made(s: State, p: nat)
    requires p < |s.procs|
  {
    s.procs[p].out in s.maker && s.maker[s.procs[p].out] == p
  }

  /** While no other process has replaced its output, it is good. */
  ghost predicate Keeping(obj: Compiler, s: State, p: nat)
    requires p < |s.procs|
  {
    Made(s, p) ==> OutputGood(obj, s, s.procs[p])
  }

  ghost predicate NoTemp(s: State, i: Ino) {
    forall u <- s.temps :: s.temps[u] != i
  }

  ghost predicate ProcOk(obj: Compiler, s: State, p: nat)
    requires p < |s.procs|
  {
    var proc := s.procs[p];
    var object0 := obj(proc.hash);
    match proc.pc
    case Compiling(dst, off) => off <= |object0| && OwnOutput(s, proc.out, dst, object0[..off])
    case Compiled => ObjectWritten(obj, s, proc)
    case TempMade(t) => ObjectWritten(obj, s, proc)
    case Storing(t, src) =>
      src < s.next && NoTemp(s, src) && Content(s, src) == object0 && Keeping(obj, s, p)
    case StoreCopying(t, src, dst, off) =>
      && src < s.next && src != dst && NoTemp(s, src) && Content(s, src) == object0 && Keeping(obj, s, p)
      && off <= |object0| && Content(s, dst) == object0[..off]
      && dst < s.next && dst !in s.sealed
      && (forall u <- s.temps :: s.temps[u] == dst <==> u == TempName(proc.hash, t))
      && (forall o <- s.outputs :: s.outputs[o] != File(dst))
    case Renaming(t) =>
      && Keeping(obj, s, p)
      && var temp := TempName(proc.hash, t);
         temp in s.temps ==> Content(s, s.temps[temp]) == object0
    case Recovering(src) => src in s.sealed && s.sealed[src] == proc.hash
    case RecoverCopying(src, dst, off) =>
      && src in s.sealed && s.sealed[src] == proc.hash
      && off <= |object0| && Content(s, dst) == object0[..off] && dst < s.next && dst !in s.sealed && NoTemp(s, dst)
      && (Made(s, p) ==> proc.out in s.outputs && s.outputs[proc.out] == File(dst))
    case Touching => Keeping(obj, s, p)
    case Done => Keeping(obj, s, p)
    case _ => true
  }

  /** The temporary file a process is going to open or rename by name. */
  function Held(proc: Proc): Option<TempName> {
    match proc.pc
    case TempMade(t) => Some(TempName(proc.hash, t))
    case Storing(t, _) => Some(TempName(proc.hash, t))
    case StoreCopying(t, _, _, _) => Some(TempName(proc.hash, t))
    case Renaming(t) => Some(TempName(proc.hash, t))
    case _ => None
  }

  /** A process that has a file open for writing. */
  predicate Writing(pc: Pc) {
    pc.Compiling? || pc.StoreCopying? || pc.RecoverCopying?
  }

  /** A process that is still going to read its output by name. */
  predicate NeedsOutput(pc: Pc) {
    pc.Compiling? || pc.Compiled? || pc.TempMade?
  }

  /** A process that has a file open for reading. */
  predicate Reading(pc: Pc) {
    pc.Storing? || pc.StoreCopying? || pc.Recovering? || pc.RecoverCopying?
  }

  /** A process that does not need its output any more, but leaves it to the user. */
  predicate LeavesOutput(pc: Pc) {
    pc.Storing? || pc.StoreCopying? || pc.Renaming? || pc.RecoverCopying? || pc.Touching? || pc.Done?
  }

  /** A process that is about to open its output for writing. */
  predicate Opening(pc: Pc) {
    pc.Missed? || pc.Recovering?
  }

  /** A process that is about to remove the old output: after parsing, and before a retrieval. */
  predicate Removing(pc: Pc) {
    pc.Deleting? || pc.Hit?
  }

  ghost predicate OutputIs(s: State, o: Path, i: Ino) {
    o in s.outputs && s.outputs[o] == File(i)
  }

  /** The files a process needs to go on: those it has open, the output it is going to read, and the temporary file it
      is about to rename. */
  ghost predicate Holds(s: State, q: nat, i: Ino)
    requires q < |s.procs|
  {
    var Proc(_, o, _, _, pc) := s.procs[q];
    || (Writing(pc) && pc.dst == i)
    || (Reading(pc) && pc.src == i)
    || (NeedsOutput(pc) && OutputIs(s, o, i))
    || (pc.Renaming? && Held(s.procs[q]).value in s.temps && s.temps[Held(s.procs[q]).value] == i)
  }

  /** The file of the output a process leaves. */
  ghost predicate Keeps(s: State, q: nat, i: Ino)
    requires q < |s.procs|
  {
    LeavesOutput(s.procs[q].pc) && Made(s, q) && OutputIs(s, s.procs[q].out, i)
  }

  ghost predicate Relies(s: State, q: nat, i: Ino)
    requires q < |s.procs|
  {
    Holds(s, q, i) || Keeps(s, q, i)
  }

  ghost predicate NotReliedOn(s: State, p: nat, w: Ino) {
    forall q :: 0 <= q < |s.procs| && q != p ==> !Relies(s, q, w)
  }

  ghost predicate NotHeldOpen(s: State, p: nat, w: Ino) {
    forall q :: 0 <= q < |s.procs| && q != p ==> !Holds(s, q, w)
  }

  /** How processes may overlap: no two of them hold the same temporary name, and what a process writes no other relies
      on. */
  ghost predicate PairsOk(s: State) {
    && (forall p, q :: 0 <= p < q < |s.procs| && Held(s.procs[p]).Some? ==> Held(s.procs[p]) != Held(s.procs[q]))
    && (forall p :: 0 <= p < |s.procs| && Writing(s.procs[p].pc) ==> NotReliedOn(s, p, s.procs[p].pc.dst))
  }

  ghost predicate Inv(obj: Compiler, s: State) {
    && NamesOk(s) && SealedOk(obj, s) && PairsOk(s)
    && (forall p :: 0 <= p < |s.procs| ==> ProcOk(obj, s, p))
  }

  /** The output of a process may be opened for writing in place: it is absent, or a regular file that is not an
      entry's, that no process needs, and that is left to the user under this name only. */
  ghost predicate OutputFree(s: State, p: nat)
    requires p < |s.procs|
  {
    var o := s.procs[p].out;
    o in s.outputs ==>
      && s.outputs[o].File?
      && (forall h <- s.entries :: s.entries[h] != s.outputs[o].ino)
      && (forall q :: 0 <= q < |s.procs| ==>
            !Holds(s, q, s.outputs[o].ino) && (s.procs[q].out != o ==> !Keeps(s, q, s.outputs[o].ino)))
  }

  /** The output of a process may be removed: no process is still going to read it. */
  ghost predicate RemovalFree(s: State, p: nat)
    requires p < |s.procs|
  {
    forall q :: 0 <= q < |s.procs| && s.procs[q].out == s.procs[p].out ==> !NeedsOutput(s.procs[q].pc)
  }

  /** An output opened in place is free, and so is one that is removed; a unique temporary name is one that no running
      process still uses. */
  ghost predicate Disciplined(s: State, e: Event) {
    match e
    case Step(p) => p < |s.procs| ==>
      && (Opening(s.procs[p].pc) ==> OutputFree(s, p))
      && (Removing(s.procs[p].pc) ==> RemovalFree(s, p))
    case CreateTemp(p, t) => p < |s.procs| ==>
      forall q :: 0 <= q < |s.procs| && q != p ==> Held(s.procs[q]) != Some(TempName(s.procs[p].hash, t))
    case _ => true
  }

  // ---------------------------------------------------------------- framing

  ghost predicate SameOutput(s: State, s': State, o: Path) {
    (o in s.outputs <==> o in s'.outputs) && (o in s.outputs ==> s'.outputs[o] == s.outputs[o])
  }

  ghost predicate SameFile(s: State, s': State, i: Ino) {
    && Content(s', i) == Content(s, i)
    && (i in s.sealed <==> i in s'.sealed)
    && (i in s.sealed ==> s'.sealed[i] == s.sealed[i])
  }

  ghost predicate TempsOnlyDrop(s: State, s': State, q: nat)
    requires q < |s.procs|
  {
    var proc := s.procs[q];
    && (forall u <- s'.temps :: (u in s.temps && s'.temps[u] == s.temps[u]) || s'.temps[u] >= s.next)
    && (Held(proc).Some? && Held(proc).value in s'.temps ==>
          Held(proc).value in s.temps && s'.temps[Held(proc).value] == s.temps[Held(proc).value])
  }

  ghost predicate NotRebound(s': State, proc: Proc) {
    proc.pc.StoreCopying? ==>
      && (forall u <- s'.temps :: s'.temps[u] == proc.pc.dst <==> u == TempName(proc.hash, proc.pc.suffix))
      && (forall o <- s'.outputs :: s'.outputs[o] != File(proc.pc.dst))
  }

  /** A step of another process has left the output of process q alone, or q does not need it and it is replaced. */
  ghost predicate Undisturbed(s: State, s': State, q: nat)
    requires q < |s.procs| <= |s'.procs|
  {
    && (Made(s', q) ==> Made(s, q))
    && (NeedsOutput(s.procs[q].pc) || Made(s', q) ==> SameOutput(s, s', s.procs[q].out))
  }

  /** What process q relies on, but for an output that was replaced in s'. */
  ghost predicate StillRelies(s: State, s': State, q: nat, i: Ino)
    requires q < |s.procs| <= |s'.procs|
  {
    Holds(s, q, i) || (Keeps(s, q, i) && Made(s', q))
  }

  /** A process that did not move stays in order if what it still relies on did not change. */
  lemma Frame(obj: Compiler, s: State, s': State, q: nat)
    requires q < |s.procs| <= |s'.procs| && s'.procs[q] == s.procs[q]
    requires ProcOk(obj, s, q) && s.next <= s'.next
    requires Undisturbed(s, s', q)
    requires forall i: Ino | StillRelies(s, s', q, i) :: SameFile(s, s', i)
    requires TempsOnlyDrop(s, s', q)
    requires NotRebound(s', s.procs[q])
    ensures ProcOk(obj, s', q)
  {
    var Proc(_, o, _, _, pc) := s.procs[q];
    if Reading(pc) {
      assert StillRelies(s, s', q, pc.src);
    }
    if Writing(pc) {
      assert StillRelies(s, s', q, pc.dst);
    }
    if LeavesOutput(pc) && !pc.RecoverCopying? {
      FrameKeeping(obj, s, s', q);
    }
    if NeedsOutput(pc) {
      assert StillRelies(s, s', q, s.outputs[o].ino);
    } else if pc.Storing? || pc.StoreCopying? {
      FrameNoTemp(s, s', q, pc.src);
    } else if pc.RecoverCopying? {
      FrameNoTemp(s, s', q, pc.dst);
    } else if pc.Renaming? && Held(s.procs[q]).value in s.temps {
      assert StillRelies(s, s', q, s.temps[Held(s.procs[q]).value]);
    }
  }

  lemma FrameNoTemp(s: State, s': State, q: nat, i: Ino)
    requires q < |s.procs| && TempsOnlyDrop(s, s', q) && NoTemp(s, i) && i < s.next
    ensures NoTemp(s', i)
  {
  }

  lemma FrameKeeping(obj: Compiler, s: State, s': State, q: nat)
    requires q < |s.procs| <= |s'.procs| && s'.procs[q] == s.procs[q]
    requires Keeping(obj, s, q) && LeavesOutput(s.procs[q].pc) && s.next <= s'.next
    requires Undisturbed(s, s', q)
    requires forall i: Ino | StillRelies(s, s', q, i) :: SameFile(s, s', i)
    ensures Keeping(obj, s', q)
  {
    var o := s.procs[q].out;
    if Made(s', q) && s.outputs[o].File? {
      assert StillRelies(s, s', q, s.outputs[o].ino);
    }
  }

  /** One process moves, to pc. */
  ghost predicate Moved(s: State, s': State, p: nat, pc: Pc) {
    p < |s.procs| && s'.procs == s.procs[p := s.procs[p].(pc := pc)]
  }

  /** What a step of process p changes at most: the file w, the binding of its own output, and temporary
      names that no other process holds. */
  ghost predicate Change(s: State, s': State, p: nat, w: Option<Ino>)
    requires p < |s.procs| == |s'.procs|
  {
    && s.next <= s'.next
    && (forall i: Ino :: i < s.next && w != Some(i) ==> SameFile(s, s', i))
    && (forall q :: 0 <= q < |s.procs| && q != p ==>
          Undisturbed(s, s', q) && (w.Some? ==> !StillRelies(s, s', q, w.value)))
    && (forall u <- s'.temps :: (u in s.temps && s'.temps[u] == s.temps[u]) || (s'.temps[u] == s.next && NotHeld(s, p, u)))
    && (forall o <- s'.outputs :: (o in s.outputs && s'.outputs[o] == s.outputs[o]) || s'.outputs[o].Link?
          || s'.outputs[o].ino >= s.next || s'.outputs[o].ino in s.sealed)
  }

  ghost predicate NotHeld(s: State, p: nat, t: TempName) {
    forall q :: 0 <= q < |s.procs| && q != p ==> Held(s.procs[q]) != Some(t)
  }

  /** A step does not make the other processes rely on more. */
  lemma RelyNoMore(s: State, s': State, p: nat, pc: Pc, w: Option<Ino>, q: nat, i: Ino)
    requires Moved(s, s', p, pc) && Change(s, s', p, w)
    requires q < |s.procs| && q != p
    ensures Relies(s', q, i) ==> StillRelies(s, s', q, i) && Relies(s, q, i)
  {
    assert s'.procs[q] == s.procs[q] && Undisturbed(s, s', q);
  }

  /** What process p relies on afterwards is what it did before, a new file, an entry's file, or a file no other process
      needs. */
  ghost predicate RelianceOk(s: State, s': State, p: nat)
    requires p < |s.procs| == |s'.procs|
  {
    forall i: Ino | Relies(s', p, i) :: Relies(s, p, i) || i >= s.next || i in s.sealed || NotHeldOpen(s, p, i)
  }

  /** The file process p writes at pc is the one the step has changed, or no other process relies on it. */
  ghost predicate WritesApart(s: State, p: nat, pc: Pc, w: Option<Ino>) {
    Writing(pc) ==> w == Some(pc.dst) || NotReliedOn(s, p, pc.dst)
  }

  lemma KeepPairs(obj: Compiler, s: State, s': State, p: nat, pc: Pc, w: Option<Ino>)
    requires Moved(s, s', p, pc) && PairsOk(s) && Change(s, s', p, w)
    requires forall q :: 0 <= q < |s.procs| ==> ProcOk(obj, s, q)
    requires NamesOk(s) && RelianceOk(s, s', p) && WritesApart(s, p, pc, w)
    requires Held(s.procs[p].(pc := pc)).Some? ==>
      forall q :: 0 <= q < |s.procs| && q != p ==> Held(s.procs[q]) != Held(s.procs[p].(pc := pc))
    ensures PairsOk(s')
  {
    forall r, q | 0 <= r < |s'.procs| && Writing(s'.procs[r].pc) && 0 <= q < |s'.procs| && q != r
      ensures !Relies(s', q, s'.procs[r].pc.dst)
    {
      var i := s'.procs[r].pc.dst;
      if q != p {
        RelyNoMore(s, s', p, pc, w, q, i);
      } else {
        assert s'.procs[r] == s.procs[r] && ProcOk(obj, s, r);
        WriterRelies(obj, s, r);
        assert !Relies(s, p, i) && !NotHeldOpen(s, p, i);
      }
    }
    forall r | 0 <= r < |s'.procs| && Writing(s'.procs[r].pc) ensures NotReliedOn(s', r, s'.procs[r].pc.dst) {}
  }

  /** What a process writes is no entry's file, and it needs it. */
  lemma WriterRelies(obj: Compiler, s: State, p: nat)
    requires p < |s.procs| && ProcOk(obj, s, p) && Writing(s.procs[p].pc) && NamesOk(s)
    ensures Holds(s, p, s.procs[p].pc.dst) && s.procs[p].pc.dst !in s.sealed && s.procs[p].pc.dst < s.next
  {
  }

  lemma OthersKept(obj: Compiler, s: State, s': State, p: nat, pc: Pc, w: Option<Ino>)
    requires Inv(obj, s) && Moved(s, s', p, pc)
    requires Change(s, s', p, w)
    ensures forall q :: 0 <= q < |s.procs| && q != p ==> ProcOk(obj, s', q)
  {
    forall q | 0 <= q < |s.procs| && q != p ensures ProcOk(obj, s', q) {
      assert s'.procs[q] == s.procs[q] && ProcOk(obj, s, q);
      OneKept(obj, s, s', p, w, q);
    }
  }

  lemma OneKept(obj: Compiler, s: State, s': State, p: nat, w: Option<Ino>, q: nat)
    requires p < |s.procs| == |s'.procs| && q < |s.procs| && q != p && s'.procs[q] == s.procs[q]
    requires NamesOk(s) && ProcOk(obj, s, q)
    requires Change(s, s', p, w)
    ensures ProcOk(obj, s', q)
  {
    assert Undisturbed(s, s', q);
    FilesKept(obj, s, s', p, w, q);
    NamesKept(obj, s, s', p, w, q);
    Frame(obj, s, s', q);
  }

  lemma FilesKept(obj: Compiler, s: State, s': State, p: nat, w: Option<Ino>, q: nat)
    requires p < |s.procs| == |s'.procs| && q < |s.procs| && q != p
    requires NamesOk(s) && ProcOk(obj, s, q)
    requires Change(s, s', p, w)
    ensures forall i: Ino | StillRelies(s, s', q, i) :: SameFile(s, s', i)
  {
    ReliedExists(obj, s, q);
    forall i: Ino | StillRelies(s, s', q, i) ensures SameFile(s, s', i) {
      assert Relies(s, q, i) && w != Some(i);
    }
  }

  lemma NamesKept(obj: Compiler, s: State, s': State, p: nat, w: Option<Ino>, q: nat)
    requires p < |s.procs| == |s'.procs| && q < |s.procs| && q != p
    requires NamesOk(s) && ProcOk(obj, s, q)
    requires Change(s, s', p, w)
    ensures TempsOnlyDrop(s, s', q) && NotRebound(s', s.procs[q])
  {
  }

  lemma ReliedExists(obj: Compiler, s: State, q: nat)
    requires q < |s.procs| && NamesOk(s) && ProcOk(obj, s, q)
    ensures forall i: Ino | Relies(s, q, i) :: i < s.next
  {
  }

  // ---------------------------------------------------------------- every event keeps the invariant

  lemma KeptBySpawn(obj: Compiler, s: State, h: Hash, o: Path, mode: Mode, source: bool)
    requires Inv(obj, s)
    ensures Inv(obj, Apply(obj, s, Spawn(h, o, mode, source)).value)
  {
    var s' := Apply(obj, s, Spawn(h, o, mode, source)).value;
    SpawnPairs(s, NewProc(h, o, mode, source));
    forall q | 0 <= q < |s'.procs| ensures ProcOk(obj, s', q) {
      if q < |s.procs| {
        assert ProcOk(obj, s, q);
        SpawnProc(obj, s, s', q);
      }
    }
  }

  lemma SpawnProc(obj: Compiler, s: State, s': State, q: nat)
    requires q < |s.procs| < |s'.procs| && s' == s.(procs := s'.procs) && s'.procs[..|s.procs|] == s.procs
    requires ProcOk(obj, s, q)
    ensures ProcOk(obj, s', q)
  {
    assert s'.procs[q] == s'.procs[..|s.procs|][q] == s.procs[q];
    Frame(obj, s, s', q);
  }

  /** Nothing more is relied on if outputs stay and temporary files at most disappear. */
  lemma SameReliance(s: State, s': State, q: nat, i: Ino)
    requires q < |s.procs| <= |s'.procs| && s'.procs[q] == s.procs[q] && s'.outputs == s.outputs && s'.maker == s.maker
    requires forall t <- s'.temps :: t in s.temps && s'.temps[t] == s.temps[t]
    ensures Relies(s', q, i) ==> Relies(s, q, i)
  {
  }

  lemma SpawnPairs(s: State, proc: Proc)
    requires PairsOk(s) && (proc.pc.Deleting? || proc.pc.Start?)
    ensures PairsOk(s.(procs := s.procs + [proc]))
  {
    var s' := s.(procs := s.procs + [proc]);
    forall p, q | 0 <= p < |s'.procs| && Writing(s'.procs[p].pc) && 0 <= q < |s'.procs| && q != p
      ensures !Relies(s', q, s'.procs[p].pc.dst)
    {
      assert p < |s.procs| && s'.procs[p] == s.procs[p];
      if q < |s.procs| {
        SameReliance(s, s', q, s.procs[p].pc.dst);
      }
    }
    forall p | 0 <= p < |s'.procs| && Writing(s'.procs[p].pc) ensures NotReliedOn(s', p, s'.procs[p].pc.dst) {}
  }

  lemma KeptByPrune(obj: Compiler, s: State, e: Event)
    requires Inv(obj, s) && (e.PruneEntry? || e.PruneTemp?) && Apply(obj, s, e).Some?
    ensures Inv(obj, Apply(obj, s, e).value)
  {
    var s' := Apply(obj, s, e).value;
    PruneNames(s, s');
    PrunePairs(s, s');
    forall q | 0 <= q < |s'.procs| ensures ProcOk(obj, s', q) {
      assert ProcOk(obj, s, q);
      PruneProc(obj, s, s', q);
    }
  }

  ghost predicate Pruned(s: State, s': State) {
    && s' == s.(entries := s'.entries, temps := s'.temps)
    && (forall h <- s'.entries :: h in s.entries && s'.entries[h] == s.entries[h])
    && (forall t <- s'.temps :: t in s.temps && s'.temps[t] == s.temps[t])
  }

  lemma PruneNames(s: State, s': State)
    requires NamesOk(s) && Pruned(s, s')
    ensures NamesOk(s')
  {
  }

  lemma PrunePairs(s: State, s': State)
    requires PairsOk(s) && Pruned(s, s')
    ensures PairsOk(s')
  {
    forall p, q | 0 <= p < |s'.procs| && Writing(s'.procs[p].pc) && 0 <= q < |s'.procs| && q != p
      ensures !Relies(s', q, s'.procs[p].pc.dst)
    {
      SameReliance(s, s', q, s.procs[p].pc.dst);
    }
    forall p | 0 <= p < |s'.procs| && Writing(s'.procs[p].pc) ensures NotReliedOn(s', p, s'.procs[p].pc.dst) {}
  }

  lemma PruneProc(obj: Compiler, s: State, s': State, q: nat)
    requires Pruned(s, s') && q < |s.procs| && ProcOk(obj, s, q)
    ensures ProcOk(obj, s', q)
  {
    Frame(obj, s, s', q);
  }

  /** A step keeps the invariant if it changes what belongs to its process and leaves names and process in order. */
  lemma KeepInv(obj: Compiler, s: State, s': State, p: nat, pc: Pc, w: Option<Ino>)
    requires Inv(obj, s) && Moved(s, s', p, pc)
    requires Change(s, s', p, w)
    requires NamesOk(s') && SealedOk(obj, s') && ProcOk(obj, s', p)
    requires HoldsTemp(s, p, pc) && WritesApart(s, p, pc, w) && RelianceOk(s, s', p)
    ensures Inv(obj, s')
  {
    OthersKept(obj, s, s', p, pc, w);
    KeepPairs(obj, s, s', p, pc, w);
  }

  /** The temporary name process p holds at pc is one it held before, or no other process holds. */
  ghost predicate HoldsTemp(s: State, p: nat, pc: Pc)
    requires p < |s.procs|
  {
    Held(s.procs[p].(pc := pc)).Some? ==>
      Held(s.procs[p].(pc := pc)) == Held(s.procs[p]) || NotHeld(s, p, Held(s.procs[p].(pc := pc)).value)
  }

  /** A step that edits files, s to s1, leaves its process in order at pc. */
  ghost predicate Ready(obj: Compiler, s: State, s1: State, p: nat, pc: Pc, w: Option<Ino>) {
    && s1.procs == s.procs && p < |s.procs|
    && Change(s, s1, p, w) && NamesOk(s1) && SealedOk(obj, s1) && ProcOk(obj, WithPc(s1, p, pc), p)
    && HoldsTemp(s, p, pc) && WritesApart(s, p, pc, w) && RelianceOk(s, WithPc(s1, p, pc), p)
  }

  /** Then its process moves. */
  lemma Commit(obj: Compiler, s: State, s1: State, p: nat, pc: Pc, w: Option<Ino>)
    requires Ready(obj, s, s1, p, pc, w) && Inv(obj, s)
    ensures Inv(obj, WithPc(s1, p, pc))
  {
    SealedMoved(obj, s1, p, pc);
    ChangeMoved(s, s1, p, pc, w);
    KeepInv(obj, s, WithPc(s1, p, pc), p, pc, w);
  }

  lemma SealedMoved(obj: Compiler, s: State, p: nat, pc: Pc)
    requires SealedOk(obj, s) && p < |s.procs|
    ensures SealedOk(obj, WithPc(s, p, pc))
  {
    assert forall i <- s.sealed :: Content(WithPc(s, p, pc), i) == Content(s, i);
  }

  lemma ChangeMoved(s: State, s1: State, p: nat, pc: Pc, w: Option<Ino>)
    requires p < |s.procs| && s1.procs == s.procs && Change(s, s1, p, w)
    ensures Change(s, WithPc(s1, p, pc), p, w)
  {
    var s' := WithPc(s1, p, pc);
    forall i: Ino | i < s.next && w != Some(i) ensures SameFile(s, s', i) {
      assert SameFile(s, s1, i);
    }
    forall q | 0 <= q < |s.procs| && q != p
      ensures Undisturbed(s, s', q) && (w.Some? ==> !StillRelies(s, s', q, w.value))
    {
      assert Undisturbed(s, s1, q) && s'.procs[q] == s.procs[q];
      assert Made(s', q) <==> Made(s1, q);
    }
  }

  lemma ProcInOrder(obj: Compiler, s: State, p: nat)
    requires p < |s.procs| && Inv(obj, s)
    ensures ProcOk(obj, s, p)
  {
  }

  /** Process p may go on to pc without touching a file. */
  ghost predicate MayMove(obj: Compiler, s: State, p: nat, pc: Pc)
    requires p < |s.procs|
  {
    && !Writing(pc) && RelianceOk(s, WithPc(s, p, pc), p) && HoldsTemp(s, p, pc)
    && ProcOk(obj, WithPc(s, p, pc), p)
  }

  /** A step that only moves its process. */
  lemma QuietMove(obj: Compiler, s: State, p: nat, pc: Pc)
    requires p < |s.procs| && MayMove(obj, s, p, pc) && Inv(obj, s)
    ensures Inv(obj, WithPc(s, p, pc))
  {
    forall q | 0 <= q < |s.procs| ensures Undisturbed(s, s, q) {}
    Commit(obj, s, s, p, pc, None);
  }

  lemma KeptByStop(obj: Compiler, s: State, p: nat)
    requires Inv(obj, s) && p < |s.procs|
    ensures Inv(obj, WithPc(s, p, Stopped))
  {
    QuietMove(obj, s, p, Stopped);
  }

  /** The steps that touch no file. */
  predicate Quiet(pc: Pc) {
    pc.Start? || pc.Compiling? || pc.TempMade? || pc.StoreCopying? || pc.RecoverCopying? || pc.Touching?
  }

  lemma KeptByQuietStep(obj: Compiler, s: State, p: nat)
    requires Inv(obj, s) && p < |s.procs| && Quiet(s.procs[p].pc) && StepOf(obj, s, p).Some?
    ensures Inv(obj, StepOf(obj, s, p).value)
  {
    ProcInOrder(obj, s, p);
    if Writing(s.procs[p].pc) {
      WritingGoes(obj, s, p);
      WritingEnds(obj, s, p);
      QuietMove(obj, s, p, EndPc(s.procs[p].pc));
    } else {
      OthersGo(obj, s, p);
      OthersMove(obj, s, p);
      QuietMove(obj, s, p, NextPc(s, p));
    }
  }

  /** Where a process goes when it has written all. */
  function EndPc(pc: Pc): Pc
    requires Writing(pc)
  {
    if pc.Compiling? then Compiled else if pc.StoreCopying? then Renaming(pc.suffix) else Touching
  }

  lemma WritingGoes(obj: Compiler, s: State, p: nat)
    requires p < |s.procs| && Writing(s.procs[p].pc) && StepOf(obj, s, p).Some?
    ensures StepOf(obj, s, p) == Some(WithPc(s, p, EndPc(s.procs[p].pc)))
  {
  }

  /** Where the other steps go that touch no file. */
  function NextPc(s: State, p: nat): Pc
    requires p < |s.procs| && Quiet(s.procs[p].pc) && !Writing(s.procs[p].pc)
  {
    var Proc(h, o, _, _, pc) := s.procs[p];
    if pc.Start? then (if h in s.entries then Hit else Missed)
    else if pc.Touching? then (if h in s.entries then Done else Stopped)
    else if Resolve(s, o).Some? then Storing(pc.suffix, Resolve(s, o).value) else Stopped
  }

  lemma OthersGo(obj: Compiler, s: State, p: nat)
    requires p < |s.procs| && Quiet(s.procs[p].pc) && !Writing(s.procs[p].pc)
    ensures StepOf(obj, s, p) == Some(WithPc(s, p, NextPc(s, p)))
  {
  }

  /** When the whole object or source has been written, the file holds the object. */
  lemma WritingEnds(obj: Compiler, s: State, p: nat)
    requires p < |s.procs| && Writing(s.procs[p].pc) && StepOf(obj, s, p).Some?
    requires NamesOk(s) && SealedOk(obj, s) && ProcOk(obj, s, p)
    ensures MayMove(obj, s, p, EndPc(s.procs[p].pc))
  {
    EndReliance(s, p);
    EndProc(obj, s, p);
  }

  lemma EndProc(obj: Compiler, s: State, p: nat)
    requires p < |s.procs| && Writing(s.procs[p].pc) && StepOf(obj, s, p).Some?
    requires NamesOk(s) && SealedOk(obj, s) && ProcOk(obj, s, p)
    ensures ProcOk(obj, WithPc(s, p, EndPc(s.procs[p].pc)), p)
  {
  }

  /** It relies on nothing new but the temporary file it has filled. */
  lemma EndReliance(s: State, p: nat)
    requires p < |s.procs| && Writing(s.procs[p].pc) && FillsItsOwn(s, s.procs[p])
    ensures RelianceOk(s, WithPc(s, p, EndPc(s.procs[p].pc)), p)
  {
  }

  lemma OthersMove(obj: Compiler, s: State, p: nat)
    requires p < |s.procs| && Quiet(s.procs[p].pc) && !Writing(s.procs[p].pc)
    requires NamesOk(s) && ProcOk(obj, s, p)
    ensures MayMove(obj, s, p, NextPc(s, p))
  {
    OtherProc(obj, s, p);
    OtherReliance(s, p);
  }

  lemma OtherProc(obj: Compiler, s: State, p: nat)
    requires p < |s.procs| && Quiet(s.procs[p].pc) && !Writing(s.procs[p].pc)
    requires NamesOk(s) && ProcOk(obj, s, p)
    ensures ProcOk(obj, WithPc(s, p, NextPc(s, p)), p)
  {
  }

  lemma OtherReliance(s: State, p: nat)
    requires p < |s.procs| && Quiet(s.procs[p].pc) && !Writing(s.procs[p].pc)
    requires s.procs[p].pc.TempMade? ==> s.procs[p].out in s.outputs && s.outputs[s.procs[p].out].File?
    ensures RelianceOk(s, WithPc(s, p, NextPc(s, p)), p)
  {
  }

  ghost predicate FillsItsOwn(s: State, proc: Proc) {
    proc.pc.StoreCopying? ==>
      TempName(proc.hash, proc.pc.suffix) in s.temps ==> s.temps[TempName(proc.hash, proc.pc.suffix)] == proc.pc.dst
  }

  // Opening the output, to write the object or the recovered copy.

  /** The output is an empty file of its own. */
  ghost predicate EmptyOutput(s: State, o: Path, dst: Ino) {
    NamesOk(s) && OwnOutput(s, o, dst, []) && dst < s.next
  }

  /** Opening an absent or free output gives an empty file of its own. */
  lemma OpenNames(s: State, p: nat)
    requires NamesOk(s) && p < |s.procs| && OutputFree(s, p)
    ensures EmptyOutput(Opened(s, p), s.procs[p].out, OpenForWrite(s, s.procs[p].out).1)
  {
    var o := s.procs[p].out;
    if o in s.outputs {
      OpenOldNames(s, p, s.outputs[o].ino);
    } else {
      OpenNewNames(s, p);
    }
  }

  lemma OpenOldNames(s: State, p: nat, i: Ino)
    requires p < |s.procs| && OutputIs(s, s.procs[p].out, i) && NamesOk(s) && forall h <- s.entries :: s.entries[h] != i
    ensures EmptyOutput(MadeBy(Emptied(s, i), p), s.procs[p].out, i)
  {
  }

  lemma OpenNewNames(s: State, p: nat)
    requires NamesOk(s) && p < |s.procs| && s.procs[p].out !in s.outputs
    ensures EmptyOutput(Opened(s, p), s.procs[p].out, s.next)
  {
  }

  /** No process is still going to read the output, if it is free or absent. */
  lemma NoneNeeds(obj: Compiler, s: State, p: nat)
    requires p < |s.procs| && OutputFree(s, p) && Inv(obj, s)
    ensures RemovalFree(s, p)
  {
    forall q | 0 <= q < |s.procs| && s.procs[q].out == s.procs[p].out ensures !NeedsOutput(s.procs[q].pc) {
      ProcInOrder(obj, s, q);
      if NeedsOutput(s.procs[q].pc) {
        assert Holds(s, q, s.outputs[s.procs[p].out].ino);
      }
    }
  }

  /** The file opened, unless it is new. */
  function OldFile(s: State, o: Path): Option<Ino> {
    if o in s.outputs && s.outputs[o].File? then Some(s.outputs[o].ino) else None
  }

  /** Process p opens its output for writing. */
  function Opened(s: State, p: nat): State
    requires p < |s.procs|
  {
    MadeBy(OpenForWrite(s, s.procs[p].out).0, p)
  }

  lemma OpenChange(obj: Compiler, s: State, p: nat)
    requires NamesOk(s) && SealedOk(obj, s) && p < |s.procs| && OutputFree(s, p) && RemovalFree(s, p)
    ensures Change(s, Opened(s, p), p, OldFile(s, s.procs[p].out)) && SealedOk(obj, Opened(s, p))
  {
    if s.procs[p].out in s.outputs {
      OpenOldChange(obj, s, p, s.outputs[s.procs[p].out].ino);
    } else {
      OpenNewChange(obj, s, p);
    }
  }

  lemma OpenOldChange(obj: Compiler, s: State, p: nat, i: Ino)
    requires SealedOk(obj, s) && p < |s.procs| && OutputIs(s, s.procs[p].out, i) && OutputFree(s, p) && RemovalFree(s, p)
    ensures Change(s, MadeBy(Emptied(s, i), p), p, Some(i)) && SealedOk(obj, MadeBy(Emptied(s, i), p))
  {
    var o, s1 := s.procs[p].out, MadeBy(Emptied(s, i), p);
    forall q | 0 <= q < |s.procs| && q != p ensures Undisturbed(s, s1, q) && !StillRelies(s, s1, q, i) {
      assert s.procs[q].out == o ==> !Made(s1, q);
    }
  }

  lemma OpenNewChange(obj: Compiler, s: State, p: nat)
    requires NamesOk(s) && SealedOk(obj, s) && p < |s.procs| && s.procs[p].out !in s.outputs && RemovalFree(s, p)
    ensures Change(s, Opened(s, p), p, None) && SealedOk(obj, Opened(s, p))
  {
    var o, s1 := s.procs[p].out, Opened(s, p);
    forall q | 0 <= q < |s.procs| && q != p ensures Undisturbed(s, s1, q) {
      assert s.procs[q].out == o ==> !Made(s1, q);
    }
  }

  /** Where a process goes by opening its output. */
  function OpenedPc(pc: Pc, dst: Ino): Pc
    requires Opening(pc)
  {
    if pc.Missed? then Compiling(dst, 0) else RecoverCopying(pc.src, dst, 0)
  }

  lemma KeptByOpen(obj: Compiler, s: State, p: nat)
    requires p < |s.procs| && Opening(s.procs[p].pc) && OutputFree(s, p)
    requires Inv(obj, s)
    ensures Inv(obj, WithPc(Opened(s, p), p, OpenedPc(s.procs[p].pc, OpenForWrite(s, s.procs[p].out).1)))
  {
    var dst := OpenForWrite(s, s.procs[p].out).1;
    ProcInOrder(obj, s, p);
    NoneNeeds(obj, s, p);
    NewNotReliedOn(obj, s, p);
    OpenReady(obj, s, p, dst);
    Commit(obj, s, Opened(s, p), p, OpenedPc(s.procs[p].pc, dst), OldFile(s, s.procs[p].out));
  }

  lemma OpenReady(obj: Compiler, s: State, p: nat, dst: Ino)
    requires p < |s.procs| && Opening(s.procs[p].pc) && OutputFree(s, p) && dst == OpenForWrite(s, s.procs[p].out).1
    requires RemovalFree(s, p) && NotReliedOn(s, p, s.next)
    requires NamesOk(s) && SealedOk(obj, s) && ProcOk(obj, s, p)
    ensures Ready(obj, s, Opened(s, p), p, OpenedPc(s.procs[p].pc, dst), OldFile(s, s.procs[p].out))
  {
    OpenNames(s, p);
    OpenChange(obj, s, p);
    OpenedReliance(s, p, dst);
    OpenedProc(obj, s, Opened(s, p), p, dst);
  }

  lemma OpenedProc(obj: Compiler, s: State, s1: State, p: nat, dst: Ino)
    requires p < |s.procs| && Opening(s.procs[p].pc) && ProcOk(obj, s, p) && s1 == Opened(s, p) && OutputFree(s, p)
    requires EmptyOutput(s1, s.procs[p].out, dst)
    ensures ProcOk(obj, WithPc(s1, p, OpenedPc(s.procs[p].pc, dst)), p)
  {
    assert s1.procs == s.procs;
    if s.procs[p].pc.Missed? {
      OpenedObject(obj, s1, p, dst);
    } else {
      StillSealed(s, p);
      OpenedRecovery(obj, s1, p, dst);
    }
  }

  /** The entry's file a process is about to copy is not the output it opens. */
  lemma StillSealed(s: State, p: nat)
    requires p < |s.procs| && s.procs[p].pc.Recovering? && OutputFree(s, p) && s.procs[p].pc.src in s.sealed
    ensures s.procs[p].pc.src in Opened(s, p).sealed
    ensures Opened(s, p).sealed[s.procs[p].pc.src] == s.sealed[s.procs[p].pc.src]
  {
    assert Holds(s, p, s.procs[p].pc.src);
  }

  lemma OpenedRecovery(obj: Compiler, s: State, p: nat, dst: Ino)
    requires p < |s.procs| && s.procs[p].pc.Recovering?
    requires s.procs[p].pc.src in s.sealed && s.sealed[s.procs[p].pc.src] == s.procs[p].hash
    requires EmptyOutput(s, s.procs[p].out, dst)
    ensures ProcOk(obj, WithPc(s, p, RecoverCopying(s.procs[p].pc.src, dst, 0)), p)
  {
  }

  lemma OpenedObject(obj: Compiler, s: State, p: nat, dst: Ino)
    requires p < |s.procs| && OwnOutput(s, s.procs[p].out, dst, [])
    ensures ProcOk(obj, WithPc(s, p, Compiling(dst, 0)), p)
  {
  }

  lemma OpenedReliance(s: State, p: nat, dst: Ino)
    requires p < |s.procs| && Opening(s.procs[p].pc) && OutputFree(s, p) && dst == OpenForWrite(s, s.procs[p].out).1
    ensures RelianceOk(s, WithPc(Opened(s, p), p, OpenedPc(s.procs[p].pc, dst)), p)
  {
    if s.procs[p].out in s.outputs {
      FreeNotHeld(s, p, dst);
    }
    NewReliance(s, WithPc(Opened(s, p), p, OpenedPc(s.procs[p].pc, dst)), p, dst);
  }

  lemma FreeNotHeld(s: State, p: nat, i: Ino)
    requires p < |s.procs| && OutputFree(s, p) && OutputIs(s, s.procs[p].out, i)
    ensures NotHeldOpen(s, p, i)
  {
  }

  /** A process that has opened its output relies on that file and on what it read before. */
  lemma NewReliance(s: State, s': State, p: nat, dst: Ino)
    requires p < |s.procs| == |s'.procs| && (dst >= s.next || NotHeldOpen(s, p, dst))
    requires s'.procs[p].out == s.procs[p].out && OutputIs(s', s.procs[p].out, dst)
    requires s'.procs[p].pc == Compiling(dst, 0) || (s'.procs[p].pc.RecoverCopying? && s'.procs[p].pc.dst == dst)
    requires s'.procs[p].pc.RecoverCopying? ==> Reading(s.procs[p].pc) && s.procs[p].pc.src == s'.procs[p].pc.src
    ensures RelianceOk(s, s', p)
  {
  }

  /** Going from one place to the other, a process reads no other file and takes no other output. */
  predicate ReadsOn(from: Pc, to: Pc) {
    && !to.Renaming? && (NeedsOutput(to) ==> NeedsOutput(from)) && (LeavesOutput(to) ==> LeavesOutput(from))
    && (Reading(to) ==> Reading(from) && from.src == to.src)
  }

  ghost predicate WritesNewOrUnheld(s: State, p: nat, pc: Pc) {
    Writing(pc) ==> pc.dst >= s.next || NotHeldOpen(s, p, pc.dst)
  }

  /** A step that leaves the outputs alone makes its process rely on nothing new, if it opens no other file. */
  lemma RelianceKept(s: State, s1: State, p: nat, pc: Pc)
    requires p < |s.procs| && ReadsOn(s.procs[p].pc, pc) && WritesNewOrUnheld(s, p, pc)
    requires s1.procs == s.procs && s1.outputs == s.outputs && s1.maker == s.maker
    ensures RelianceOk(s, WithPc(s1, p, pc), p)
  {
  }

  // Writing through an open file.

  /** A temporary file whose name no other process holds. */
  lemma TempNotReliedOn(obj: Compiler, s: State, p: nat, temp: TempName)
    requires Inv(obj, s) && p < |s.procs| && temp in s.temps && NotHeld(s, p, temp)
    ensures NotReliedOn(s, p, s.temps[temp]) && NotHeldOpen(s, p, s.temps[temp])
  {
    forall q | 0 <= q < |s.procs| && q != p
      ensures !Relies(s, q, s.temps[temp]) && !Holds(s, q, s.temps[temp])
    {
      assert ProcOk(obj, s, q);
      assert Held(s.procs[q]) != Some(temp);
    }
  }

  lemma NewNotReliedOn(obj: Compiler, s: State, p: nat)
    requires Inv(obj, s) && p < |s.procs|
    ensures NotReliedOn(s, p, s.next)
  {
    forall q | 0 <= q < |s.procs| && q != p ensures !Relies(s, q, s.next) {
      assert ProcOk(obj, s, q);
    }
  }

  lemma EditData(obj: Compiler, s: State, p: nat, i: Ino, b: Bytes)
    requires NamesOk(s) && SealedOk(obj, s) && p < |s.procs| && i !in s.sealed && NotReliedOn(s, p, i)
    ensures
      var s1 := s.(data := s.data[i := b]);
      NamesOk(s1) && SealedOk(obj, s1) && Change(s, s1, p, Some(i))
  {
    EditApart(s, s.(data := s.data[i := b]), p, i);
  }

  lemma EditApart(s: State, s1: State, p: nat, i: Ino)
    requires p < |s.procs| && NotReliedOn(s, p, i) && s1.procs == s.procs && s1.outputs == s.outputs && s1.maker == s.maker
    ensures forall q :: 0 <= q < |s.procs| && q != p ==> Undisturbed(s, s1, q) && !StillRelies(s, s1, q, i)
  {
    forall q | 0 <= q < |s.procs| && q != p ensures Undisturbed(s, s1, q) && !StillRelies(s, s1, q, i) {
      assert !Relies(s, q, i);
    }
  }

  lemma WriteNext(whole: Bytes, off: nat, n: nat)
    ensures off + n <= |whole| ==> WriteAt(whole[..off], off, whole[off..off + n]) == whole[..off + n]
  {
    assert off + n <= |whole| ==> whole[..off] + whole[off..off + n] == whole[..off + n];
  }

  /** The next chunk written by a process: its source is the compiler, its own output, or an entry's file. */
  lemma KeptByWrite(obj: Compiler, s: State, p: nat, n: nat)
    requires p < |s.procs| && WriteOf(obj, s, p, n).Some? && Inv(obj, s)
    ensures Inv(obj, WriteOf(obj, s, p, n).value)
  {
    ProcInOrder(obj, s, p);
    WriteProc(obj, s, p, n);
    WriterAlone(obj, s, p);
    CommitWrite(obj, s, p, obj(s.procs[p].hash)[..s.procs[p].pc.off + n], s.procs[p].pc.off + n);
  }

  lemma CommitWrite(obj: Compiler, s: State, p: nat, b: Bytes, off: nat)
    requires p < |s.procs| && Writing(s.procs[p].pc) && ProcOk(obj, Filled(s, p, b, off), p)
    requires s.procs[p].pc.dst !in s.sealed && NotReliedOn(s, p, s.procs[p].pc.dst)
    requires Inv(obj, s)
    ensures Inv(obj, Filled(s, p, b, off))
  {
    var pc := s.procs[p].pc;
    FilledReady(obj, s, p, b, off);
    Commit(obj, s, s.(data := s.data[pc.dst := b]), p, pc.(off := off), Some(pc.dst));
  }

  lemma FilledReady(obj: Compiler, s: State, p: nat, b: Bytes, off: nat)
    requires p < |s.procs| && Writing(s.procs[p].pc) && ProcOk(obj, Filled(s, p, b, off), p)
    requires s.procs[p].pc.dst !in s.sealed && NotReliedOn(s, p, s.procs[p].pc.dst)
    requires NamesOk(s) && SealedOk(obj, s)
    ensures
      var pc := s.procs[p].pc;
      Ready(obj, s, s.(data := s.data[pc.dst := b]), p, pc.(off := off), Some(pc.dst))
  {
    EditData(obj, s, p, s.procs[p].pc.dst, b);
  }

  /** The file a process writes to is no entry, and no other process relies on it. */
  lemma WriterAlone(obj: Compiler, s: State, p: nat)
    requires p < |s.procs| && Writing(s.procs[p].pc) && Inv(obj, s)
    ensures s.procs[p].pc.dst !in s.sealed && NotReliedOn(s, p, s.procs[p].pc.dst)
  {
    ProcInOrder(obj, s, p);
    WriterRelies(obj, s, p);
  }

  /** The state after writing: the file's content, and how much is written. */
  function Filled(s: State, p: nat, b: Bytes, off: nat): State
    requires p < |s.procs| && Writing(s.procs[p].pc)
  {
    WithPc(s.(data := s.data[s.procs[p].pc.dst := b]), p, s.procs[p].pc.(off := off))
  }

  lemma WriteProc(obj: Compiler, s: State, p: nat, n: nat)
    requires SealedOk(obj, s) && p < |s.procs| && ProcOk(obj, s, p) && WriteOf(obj, s, p, n).Some?
    ensures Writing(s.procs[p].pc) && Extends(obj, s, p, s.procs[p].pc.off + n, WriteOf(obj, s, p, n).value)
  {
    WriteNext(obj(s.procs[p].hash), s.procs[p].pc.off, n);
    if s.procs[p].pc.Compiling? {
      ObjectGrows(obj, s, p, n);
    } else if s.procs[p].pc.StoreCopying? {
      StoreGrows(obj, s, p, n);
    } else {
      RecoveryGrows(obj, s, p, n);
    }
  }

  /** In s' the first `end` bytes of the object are in the file that process p writes. */
  ghost predicate Extends(obj: Compiler, s: State, p: nat, end: nat, s': State)
    requires p < |s.procs| && Writing(s.procs[p].pc)
  {
    var whole := obj(s.procs[p].hash);
    end <= |whole| && s' == Filled(s, p, whole[..end], end) && ProcOk(obj, s', p)
  }

  lemma ObjectGrows(obj: Compiler, s: State, p: nat, n: nat)
    requires p < |s.procs| && s.procs[p].pc.Compiling? && ProcOk(obj, s, p) && WriteOf(obj, s, p, n).Some?
    requires var whole, off := obj(s.procs[p].hash), s.procs[p].pc.off;
      off + n <= |whole| ==> WriteAt(whole[..off], off, whole[off..off + n]) == whole[..off + n]
    ensures Extends(obj, s, p, s.procs[p].pc.off + n, WriteOf(obj, s, p, n).value)
  {
  }

  lemma StoreGrows(obj: Compiler, s: State, p: nat, n: nat)
    requires p < |s.procs| && s.procs[p].pc.StoreCopying? && ProcOk(obj, s, p) && WriteOf(obj, s, p, n).Some?
    requires var whole, off := obj(s.procs[p].hash), s.procs[p].pc.off;
      off + n <= |whole| ==> WriteAt(whole[..off], off, whole[off..off + n]) == whole[..off + n]
    ensures Extends(obj, s, p, s.procs[p].pc.off + n, WriteOf(obj, s, p, n).value)
  {
  }

  lemma RecoveryGrows(obj: Compiler, s: State, p: nat, n: nat)
    requires p < |s.procs| && s.procs[p].pc.RecoverCopying? && ProcOk(obj, s, p) && WriteOf(obj, s, p, n).Some?
    requires SealedOk(obj, s)
    requires var whole, off := obj(s.procs[p].hash), s.procs[p].pc.off;
      off + n <= |whole| ==> WriteAt(whole[..off], off, whole[off..off + n]) == whole[..off + n]
    ensures Extends(obj, s, p, s.procs[p].pc.off + n, WriteOf(obj, s, p, n).value)
  {
  }

  // Storing: a new temporary file, its opening, and the rename.

  lemma NewTempNames(obj: Compiler, s: State, p: nat, t: TempName)
    requires NamesOk(s) && SealedOk(obj, s) && t !in s.temps && p < |s.procs| && NotHeld(s, p, t)
    ensures
      var s1 := CreateTempFile(s, t);
      NamesOk(s1) && SealedOk(obj, s1) && Change(s, s1, p, None)
  {
    NewTempNamesOk(s, t);
    assert forall i: Ino | i < s.next :: Content(CreateTempFile(s, t), i) == Content(s, i);
  }

  lemma NewTempNamesOk(s: State, t: TempName)
    requires NamesOk(s) && t !in s.temps
    ensures NamesOk(CreateTempFile(s, t))
  {
  }

  lemma KeptByCreateTemp(obj: Compiler, s: State, p: nat, t: string)
    requires p < |s.procs| && s.procs[p].pc.Compiled?
    requires var temp := TempName(s.procs[p].hash, t); temp !in s.temps && NotHeld(s, p, temp)
    requires Inv(obj, s)
    ensures Inv(obj, WithPc(CreateTempFile(s, TempName(s.procs[p].hash, t)), p, TempMade(t)))
  {
    ProcInOrder(obj, s, p);
    CreateTempReady(obj, s, p, t);
    Commit(obj, s, CreateTempFile(s, TempName(s.procs[p].hash, t)), p, TempMade(t), None);
  }

  lemma CreateTempReady(obj: Compiler, s: State, p: nat, t: string)
    requires p < |s.procs| && s.procs[p].pc.Compiled?
    requires var temp := TempName(s.procs[p].hash, t); temp !in s.temps && NotHeld(s, p, temp)
    requires ProcOk(obj, s, p) && NamesOk(s) && SealedOk(obj, s)
    ensures Ready(obj, s, CreateTempFile(s, TempName(s.procs[p].hash, t)), p, TempMade(t), None)
  {
    RelianceKept(s, CreateTempFile(s, TempName(s.procs[p].hash, t)), p, TempMade(t));
    NewTempNames(obj, s, p, TempName(s.procs[p].hash, t));
  }

  lemma KeptByOpenTemp(obj: Compiler, s: State, p: nat)
    requires Inv(obj, s) && p < |s.procs| && s.procs[p].pc.Storing?
    ensures Inv(obj, StepOf(obj, s, p).value)
  {
    var Storing(t, src) := s.procs[p].pc;
    var temp := TempName(s.procs[p].hash, t);
    assert ProcOk(obj, s, p);
    assert NotHeld(s, p, temp);
    if temp in s.temps {
      OpenOldTemp(obj, s, p, t, src);
    } else {
      OpenNewTemp(obj, s, p, t, src);
    }
  }

  lemma OpenOldTemp(obj: Compiler, s: State, p: nat, t: string, src: Ino)
    requires p < |s.procs| && s.procs[p].pc == Storing(t, src) && TempName(s.procs[p].hash, t) in s.temps
    requires NotHeld(s, p, TempName(s.procs[p].hash, t))
    requires Inv(obj, s)
    ensures
      var i := s.temps[TempName(s.procs[p].hash, t)];
      Inv(obj, WithPc(s.(data := s.data[i := []]), p, StoreCopying(t, src, i, 0)))
  {
    var temp := TempName(s.procs[p].hash, t);
    var i := s.temps[temp];
    ProcInOrder(obj, s, p);
    TempNotReliedOn(obj, s, p, temp);
    OpenOldReady(obj, s, p, t, src);
    Commit(obj, s, s.(data := s.data[i := []]), p, StoreCopying(t, src, i, 0), Some(i));
  }

  /** With the temporary file empty and open, a process may begin to copy its object. */
  lemma StoreOpened(obj: Compiler, s: State, s1: State, p: nat, t: string, src: Ino, dst: Ino)
    requires p < |s.procs| && s.procs[p].pc == Storing(t, src) && ProcOk(obj, s, p)
    requires s1.procs == s.procs && s1.outputs == s.outputs && s1.maker == s.maker && s.next <= s1.next && NamesOk(s1)
    requires forall i: Ino | i < s.next && i != dst :: Content(s1, i) == Content(s, i)
    requires NoTemp(s1, src) && Content(s1, dst) == []
    requires TempName(s.procs[p].hash, t) in s1.temps && s1.temps[TempName(s.procs[p].hash, t)] == dst
    ensures ProcOk(obj, WithPc(s1, p, StoreCopying(t, src, dst, 0)), p)
  {
  }

  lemma OpenOldReady(obj: Compiler, s: State, p: nat, t: string, src: Ino)
    requires p < |s.procs| && s.procs[p].pc == Storing(t, src) && TempName(s.procs[p].hash, t) in s.temps
    requires var i := s.temps[TempName(s.procs[p].hash, t)]; NotReliedOn(s, p, i) && NotHeldOpen(s, p, i)
    requires ProcOk(obj, s, p) && NamesOk(s) && SealedOk(obj, s)
    ensures
      var i := s.temps[TempName(s.procs[p].hash, t)];
      Ready(obj, s, s.(data := s.data[i := []]), p, StoreCopying(t, src, i, 0), Some(i))
  {
    var i := s.temps[TempName(s.procs[p].hash, t)];
    var s1 := s.(data := s.data[i := []]);
    RelianceKept(s, s1, p, StoreCopying(t, src, i, 0));
    EditData(obj, s, p, i, []);
    StoreOpened(obj, s, s1, p, t, src, i);
  }

  lemma OpenNewTemp(obj: Compiler, s: State, p: nat, t: string, src: Ino)
    requires p < |s.procs| && s.procs[p].pc == Storing(t, src) && TempName(s.procs[p].hash, t) !in s.temps
    requires NotHeld(s, p, TempName(s.procs[p].hash, t))
    requires Inv(obj, s)
    ensures Inv(obj, WithPc(CreateTempFile(s, TempName(s.procs[p].hash, t)), p, StoreCopying(t, src, s.next, 0)))
  {
    ProcInOrder(obj, s, p);
    NewNotReliedOn(obj, s, p);
    OpenNewReady(obj, s, p, t, src);
    Commit(obj, s, CreateTempFile(s, TempName(s.procs[p].hash, t)), p, StoreCopying(t, src, s.next, 0), None);
  }

  lemma OpenNewReady(obj: Compiler, s: State, p: nat, t: string, src: Ino)
    requires p < |s.procs| && s.procs[p].pc == Storing(t, src) && TempName(s.procs[p].hash, t) !in s.temps
    requires NotHeld(s, p, TempName(s.procs[p].hash, t)) && NotReliedOn(s, p, s.next)
    requires ProcOk(obj, s, p) && NamesOk(s) && SealedOk(obj, s)
    ensures Ready(obj, s, CreateTempFile(s, TempName(s.procs[p].hash, t)), p, StoreCopying(t, src, s.next, 0), None)
  {
    var s1 := CreateTempFile(s, TempName(s.procs[p].hash, t));
    RelianceKept(s, s1, p, StoreCopying(t, src, s.next, 0));
    NewTempNames(obj, s, p, TempName(s.procs[p].hash, t));
    StoreOpened(obj, s, s1, p, t, src, s.next);
  }

  /** The effect of the rename on the files. */
  function Publish(s: State, temp: TempName): State
    requires temp in s.temps
  {
    var i := s.temps[temp];
    s.(entries := s.entries[temp.hash := i], temps := s.temps - {temp}, sealed := s.sealed[i := temp.hash])
  }

  lemma PublishNames(obj: Compiler, s: State, p: nat, temp: TempName)
    requires NamesOk(s) && SealedOk(obj, s) && p < |s.procs| && temp in s.temps
    requires NotReliedOn(s, p, s.temps[temp]) && Content(s, s.temps[temp]) == obj(temp.hash)
    ensures
      var s1 := Publish(s, temp);
      NamesOk(s1) && SealedOk(obj, s1) && Change(s, s1, p, Some(s.temps[temp]))
  {
    EditApart(s, Publish(s, temp), p, s.temps[temp]);
  }

  lemma KeptByRename(obj: Compiler, s: State, p: nat)
    requires Inv(obj, s) && p < |s.procs| && s.procs[p].pc.Renaming?
    ensures Inv(obj, StepOf(obj, s, p).value)
  {
    var temp := TempName(s.procs[p].hash, s.procs[p].pc.suffix);
    if temp in s.temps {
      KeptByPublish(obj, s, p, temp);
    } else {
      KeptByStop(obj, s, p);
    }
  }

  lemma KeptByPublish(obj: Compiler, s: State, p: nat, temp: TempName)
    requires p < |s.procs| && s.procs[p].pc.Renaming?
    requires temp == TempName(s.procs[p].hash, s.procs[p].pc.suffix) && temp in s.temps
    requires Inv(obj, s)
    ensures Inv(obj, WithPc(Publish(s, temp), p, Done))
  {
    ProcInOrder(obj, s, p);
    assert NotHeld(s, p, temp);
    TempNotReliedOn(obj, s, p, temp);
    PublishReady(obj, s, p, temp);
    Commit(obj, s, Publish(s, temp), p, Done, Some(s.temps[temp]));
  }

  lemma PublishReady(obj: Compiler, s: State, p: nat, temp: TempName)
    requires p < |s.procs| && s.procs[p].pc.Renaming?
    requires temp == TempName(s.procs[p].hash, s.procs[p].pc.suffix) && temp in s.temps
    requires NotReliedOn(s, p, s.temps[temp])
    requires ProcOk(obj, s, p) && NamesOk(s) && SealedOk(obj, s)
    ensures Ready(obj, s, Publish(s, temp), p, Done, Some(s.temps[temp]))
  {
    RelianceKept(s, Publish(s, temp), p, Done);
    PublishNames(obj, s, p, temp);
  }

  // The removal of the old output, and retrieval by link.

  lemma RemoveNames(obj: Compiler, s: State, p: nat)
    requires NamesOk(s) && SealedOk(obj, s) && p < |s.procs| && RemovalFree(s, p)
    ensures
      var s1 := Removed(s, s.procs[p].out);
      NamesOk(s1) && SealedOk(obj, s1) && Change(s, s1, p, None)
  {
  }

  /** Where a process goes by removing the old output. */
  function RemovedPc(pc: Pc): Pc
    requires Removing(pc)
  {
    if pc.Deleting? then Start else Fetching
  }

  lemma KeptByRemoveOutput(obj: Compiler, s: State, p: nat)
    requires p < |s.procs| && Removing(s.procs[p].pc) && RemovalFree(s, p)
    requires Inv(obj, s)
    ensures Inv(obj, WithPc(Removed(s, s.procs[p].out), p, RemovedPc(s.procs[p].pc)))
  {
    RemoveNames(obj, s, p);
    Commit(obj, s, Removed(s, s.procs[p].out), p, RemovedPc(s.procs[p].pc), None);
  }

  /** A node for an entry of hash h or its file. */
  predicate EntryNode(s: State, h: Hash, node: Node) {
    match node
    case Link(h') => h' == h
    case File(i) => i in s.sealed && s.sealed[i] == h
  }

  lemma LinkNames(s: State, p: nat, node: Node)
    requires NamesOk(s) && p < |s.procs| && EntryNode(s, s.procs[p].hash, node)
    ensures NamesOk(Bound(s, p, node))
  {
  }

  lemma LinkChange(obj: Compiler, s: State, p: nat, node: Node)
    requires NamesOk(s) && SealedOk(obj, s) && p < |s.procs| && RemovalFree(s, p) && EntryNode(s, s.procs[p].hash, node)
    ensures Change(s, Bound(s, p, node), p, None) && SealedOk(obj, Bound(s, p, node))
  {
    forall q | 0 <= q < |s.procs| && q != p ensures Undisturbed(s, Bound(s, p, node), q) {}
  }

  lemma KeptByLink(obj: Compiler, s: State, p: nat, node: Node)
    requires Inv(obj, s) && p < |s.procs| && s.procs[p].pc.Fetching? && s.procs[p].mode != Copy
    requires s.procs[p].out !in s.outputs && EntryNode(s, s.procs[p].hash, node)
    requires node.Link? ==> AnySymLink(s.procs[p].mode)
    ensures Inv(obj, WithPc(Bound(s, p, node), p, Touching))
  {
    NoneNeeds(obj, s, p);
    LinkReady(obj, s, p, node);
    Commit(obj, s, Bound(s, p, node), p, Touching, None);
  }

  lemma LinkReady(obj: Compiler, s: State, p: nat, node: Node)
    requires p < |s.procs| && EntryNode(s, s.procs[p].hash, node) && (node.Link? ==> AnySymLink(s.procs[p].mode))
    requires NamesOk(s) && SealedOk(obj, s) && RemovalFree(s, p)
    ensures Ready(obj, s, Bound(s, p, node), p, Touching, None)
  {
    LinkNames(s, p, node);
    LinkChange(obj, s, p, node);
    LinkProc(obj, s, p, node);
    LinkReliance(s, p, node);
  }

  lemma LinkProc(obj: Compiler, s: State, p: nat, node: Node)
    requires p < |s.procs| && EntryNode(s, s.procs[p].hash, node) && (node.Link? ==> AnySymLink(s.procs[p].mode))
    requires NamesOk(s) && SealedOk(obj, s)
    ensures ProcOk(obj, WithPc(Bound(s, p, node), p, Touching), p)
  {
  }

  lemma LinkReliance(s: State, p: nat, node: Node)
    requires p < |s.procs| && EntryNode(s, s.procs[p].hash, node)
    ensures RelianceOk(s, WithPc(Bound(s, p, node), p, Touching), p)
  {
  }

  lemma KeptByFetch(obj: Compiler, s: State, p: nat)
    requires Inv(obj, s) && p < |s.procs| && s.procs[p].pc.Fetching?
    ensures Inv(obj, StepOf(obj, s, p).value)
  {
    var Proc(h, o, mode, _, _) := s.procs[p];
    assert ProcOk(obj, s, p);
    if mode.Copy? && h in s.entries {
      QuietMove(obj, s, p, Recovering(s.entries[h]));
    } else if mode.Copy? || o in s.outputs || (mode.HardLink? && h !in s.entries) {
      KeptByStop(obj, s, p);
    } else {
      KeptByLink(obj, s, p, if mode.HardLink? then File(s.entries[h]) else Link(h));
    }
  }

  /** Every disciplined event keeps the invariant. */
  lemma Kept(obj: Compiler, s: State, e: Event)
    requires Inv(obj, s) && Disciplined(s, e) && Apply(obj, s, e).Some?
    ensures Inv(obj, Apply(obj, s, e).value)
  {
    match e
    case Spawn(h, o, mode, source) => KeptBySpawn(obj, s, h, o, mode, source);
    case Write(p, n) => KeptByWrite(obj, s, p, n);
    case CreateTemp(p, t) => KeptByCreateTemp(obj, s, p, t);
    case Stop(p) => KeptByStop(obj, s, p);
    case PruneEntry(_) => KeptByPrune(obj, s, e);
    case PruneTemp(_) => KeptByPrune(obj, s, e);
    case Step(p) =>
      match s.procs[p].pc
      case Missed => KeptByOpen(obj, s, p);
      case Recovering(_) => KeptByOpen(obj, s, p);
      case Storing(_, _) => KeptByOpenTemp(obj, s, p);
      case Renaming(_) => KeptByRename(obj, s, p);
      case Deleting => KeptByRemoveOutput(obj, s, p);
      case Hit => KeptByRemoveOutput(obj, s, p);
      case Fetching => KeptByFetch(obj, s, p);
      case _ => KeptByQuietStep(obj, s, p);
  }
}
