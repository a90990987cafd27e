/** A whole code generation run: the driver's `codegenModules` in driver/main.cpp. */
module CodegenRun {

  import opened CodeGenerator
  import opened Common
  import opened LinkerMetadata

  /** Whether a module is compiled for the host, for compute devices, or both. */
  datatype Compute = HostOnly | DeviceOnly | HostAndDevice

  /** A source module. Headers produce no code; `badAttr` tells that its compute attribute is reported as an error.
      `file` is its place on the command line, which stands for the address of its object file's name. */
  datatype Source = Source(file: nat, m: DModule, header: bool, compute: Compute, badAttr: bool)

  /** An element of the list of object files: the address of a string, and the string. */
  datatype ObjFile = ObjFile(file: nat, name: string)

  predicate ForHost(s: Source) {
    !s.header && s.compute != DeviceOnly
  }

  /** Code generation stops with a fatal error at this module. */
  predicate Stops(s: Source) {
    !s.header && (s.badAttr || (s.compute != DeviceOnly && s.m.fails))
  }

  /** The modules for the host, last one first. */
  function HostModules(sources: seq<Source>): seq<DModule> {
    if sources == [] then []
    else HostModules(sources[1..]) + (if ForHost(sources[0]) then [sources[0].m] else [])
  }

  /** The modules that are completed, from the last one backwards, until one stops the run. */
  function CompletedSources(sources: seq<Source>): seq<Source> {
    if sources == [] || Stops(sources[|sources| - 1]) then []
    else CompletedSources(sources[..|sources| - 1]) + [sources[|sources| - 1]]
  }

  /** The list without the first element at an address. */
  function Without(objfiles: seq<ObjFile>, file: nat): seq<ObjFile> {
    if objfiles == [] then []
    else if objfiles[0].file == file then objfiles[1..]
    else [objfiles[0]] + Without(objfiles[1..], file)
  }

  /** The object files left after those of modules for devices only have been dropped. */
  function Remaining(sources: seq<Source>, objfiles: seq<ObjFile>): seq<ObjFile> {
    if sources == [] then objfiles else LeftBy(sources[0], Remaining(sources[1..], objfiles))
  }

  function First(objfiles: seq<ObjFile>): Option<string> {
    if objfiles == [] then None else Some(objfiles[0].name)
  }

  method Remove(objfiles: seq<ObjFile>, file: nat) returns (r: seq<ObjFile>)
    ensures r == Without(objfiles, file)
  {
    for j := 0 to |objfiles|
      invariant Without(objfiles, file) == objfiles[..j] + Without(objfiles[j..], file)
    {
      WithoutStep(objfiles, file, j);
      if file == objfiles[j].file {
        return objfiles[..j] + objfiles[j + 1..];
      }
    }
    return objfiles;
  }

  lemma WithoutStep(objfiles: seq<ObjFile>, file: nat, j: nat)
    requires j < |objfiles|
    ensures objfiles[..j] + Without(objfiles[j..], file) ==
      if file == objfiles[j].file then objfiles[..j] + objfiles[j + 1..]
      else objfiles[..j + 1] + Without(objfiles[j + 1..], file)
  {
    assert objfiles[j..][1..] == objfiles[j + 1..];
    assert objfiles[..j + 1] == objfiles[..j] + [objfiles[j]];
  }

  /** What the run writes: the completed modules, and what the destructor writes unless a fatal error ended the run. */
  function RunFiles(sources: seq<Source>, oneobj: bool, bitcodeFiles: seq<BitcodeFile>, first: Option<string>): seq<Written> {
    var done := CompletedSources(sources);
    BeforeDestroy(oneobj, HostModules(done), bitcodeFiles) +
    (if |done| < |sources| then [] else AtDestroy(oneobj, HostModules(sources), bitcodeFiles, first))
  }

  lemma RunFilesParts(sources: seq<Source>, oneobj: bool, bitcodeFiles: seq<BitcodeFile>, first: Option<string>)
    requires NoneStops(sources)
    ensures RunFiles(sources, oneobj, bitcodeFiles, first) ==
      BeforeDestroy(oneobj, HostModules(sources), bitcodeFiles) +
      AtDestroy(oneobj, HostModules(sources), bitcodeFiles, first)
  {
    AllCompleted(sources);
  }

  /** A run in which no module stops it writes the files of its mode for all host modules. */
  lemma RunFilesExactly(sources: seq<Source>, oneobj: bool, bitcodeFiles: seq<BitcodeFile>, first: Option<string>)
    requires NoneStops(sources)
    ensures RunFiles(sources, oneobj, bitcodeFiles, first) == Files(oneobj, HostModules(sources), bitcodeFiles, first)
  {
    RunFilesParts(sources, oneobj, bitcodeFiles, first);
    FilesParts(oneobj, HostModules(sources), bitcodeFiles, first);
  }

  /** If module i is the last one that stops the run, the modules behind it are written in multi-object mode, and nothing
      in single-object mode. */
  lemma RunFilesStopped(sources: seq<Source>, i: nat, oneobj: bool, bitcodeFiles: seq<BitcodeFile>, first: Option<string>)
    requires i < |sources| && NoneStops(sources[i + 1..]) && Stops(sources[i])
    ensures RunFiles(sources, oneobj, bitcodeFiles, first) ==
      if oneobj then [] else Separate(HostModules(sources[i + 1..]), bitcodeFiles)
  {
    StopsHere(sources, i);
    var now := BeforeDestroy(oneobj, HostModules(sources[i + 1..]), bitcodeFiles);
    assert now + [] == now;
  }

  lemma FilesParts(oneobj: bool, ms: seq<DModule>, bitcodeFiles: seq<BitcodeFile>, first: Option<string>)
    ensures BeforeDestroy(oneobj, ms, bitcodeFiles) + AtDestroy(oneobj, ms, bitcodeFiles, first) ==
      Files(oneobj, ms, bitcodeFiles, first)
  {
  }

  function Output(sources: seq<Source>, obj: bool, oneobj: bool, bitcodeFiles: seq<BitcodeFile>, first: Option<string>)
      : seq<Written> {
    if obj then RunFiles(sources, oneobj, bitcodeFiles, first) else []
  }

  /** Generates code for all modules, in reverse order. */
  method CodegenModules(sources: seq<Source>, obj: bool, oneobj: bool, bitcodeFiles: seq<BitcodeFile>,
                        objfiles: seq<ObjFile>, link: bool, disk: Disk)
      returns (fatal: bool, objfiles': seq<ObjFile>, link': bool)
    modifies disk
    ensures fatal == (obj && |CompletedSources(sources)| < |sources|)
    ensures !fatal ==> objfiles' == if obj then Remaining(sources, objfiles) else objfiles
    ensures !fatal ==> link' == (link && !(obj && sources != [] && objfiles' == []))
    ensures disk.written ==
      old(disk.written) + Output(sources, obj, oneobj, bitcodeFiles, First(Remaining(sources, objfiles)))
  {
    fatal, objfiles', link' := false, objfiles, link;
    NothingToDo(disk.written, oneobj, bitcodeFiles, First(objfiles));
    if obj && sources != [] {
      fatal, objfiles' := Generate(sources, oneobj, bitcodeFiles, objfiles, disk);
      if !fatal && objfiles' == [] {
        link' := false;
      }
    }
  }

  /** The life of the code generator in the run. */
  method Generate(sources: seq<Source>, oneobj: bool, bitcodeFiles: seq<BitcodeFile>, objfiles: seq<ObjFile>, disk: Disk)
      returns (fatal: bool, objfiles': seq<ObjFile>)
    modifies disk
    ensures fatal <==> |CompletedSources(sources)| < |sources|
    ensures !fatal ==> objfiles' == Remaining(sources, objfiles)
    ensures disk.written ==
      old(disk.written) + RunFiles(sources, oneobj, bitcodeFiles, First(Remaining(sources, objfiles)))
  {
    var cg := new CodeGenerator(oneobj, bitcodeFiles, disk);
    fatal, objfiles' := EmitAll(cg, sources, objfiles);
    if fatal {
      return;
    }
    cg.Destroy(First(objfiles'));
  }

  lemma NothingToDo(before: seq<Written>, oneobj: bool, bitcodeFiles: seq<BitcodeFile>, first: Option<string>)
    ensures before + RunFiles([], oneobj, bitcodeFiles, first) == before == before + []
  {
    assert CompletedSources([]) == [] && HostModules([]) == [];
  }

  /** The completed modules are the last ones, up to one that stops the run. */
  lemma {:induction false} CompletedExactly(sources: seq<Source>)
    ensures
      var r := CompletedSources(sources);
      && |r| <= |sources| && r == sources[|sources| - |r|..] && NoneStops(r)
      && (|r| < |sources| ==> Stops(sources[|sources| - |r| - 1]))
    decreases |sources|
  {
    if sources != [] && !Stops(sources[|sources| - 1]) {
      CompletedExactly(sources[..|sources| - 1]);
    }
  }

  /** The run ends with a fatal error exactly if a module stops it. */
  lemma AllCompleted(sources: seq<Source>)
    ensures |CompletedSources(sources)| < |sources| <==> !NoneStops(sources)
    ensures |CompletedSources(sources)| < |sources| <==>
      exists s <- sources :: !s.header && (s.badAttr || (s.compute != DeviceOnly && s.m.fails))
    ensures NoneStops(sources) ==> CompletedSources(sources) == sources
  {
    var n := |CompletedSources(sources)|;
    CompletedExactly(sources);
    if n < |sources| {
      assert sources[|sources| - n - 1] in sources;
    } else {
      assert CompletedSources(sources) == sources[0..] == sources;
    }
  }

  /** The loop over the modules. Behind it everything is written with a fatal error, and otherwise what the destructor
      does not write. */
  method EmitAll(cg: CodeGenerator, sources: seq<Source>, objfiles: seq<ObjFile>)
      returns (fatal: bool, objfiles': seq<ObjFile>)
    requires cg.Valid() && cg.emitted == []
    modifies cg, cg.Owned(), cg.disk
    ensures fatal <==> |CompletedSources(sources)| < |sources|
    ensures !fatal ==> CompletedSources(sources) == sources && fresh(cg.Owned() - old(cg.Owned()))
    ensures !fatal ==> cg.Valid() && cg.emitted == HostModules(sources) && objfiles' == Remaining(sources, objfiles)
    ensures
      old(cg.disk.written) + RunFiles(sources, cg.singleObj, cg.bitcodeFiles, First(Remaining(sources, objfiles))) ==
      cg.disk.written +
        (if fatal then [] else AtDestroy(cg.singleObj, cg.emitted, cg.bitcodeFiles, First(objfiles')))
  {
    fatal, objfiles' := false, objfiles;
    ghost var run := Run(sources, cg.singleObj, cg.bitcodeFiles, objfiles, cg.disk.written);
    assert cg.disk.written == cg.disk.written + BeforeDestroy(cg.singleObj, [], cg.bitcodeFiles);
    var i := |sources|;
    while i > 0
      invariant 0 <= i <= |sources|
      invariant cg.Valid() && fresh(cg.Owned() - old(cg.Owned()))
      invariant run.At(i, cg.emitted, cg.disk.written, objfiles')
    {
      i := i - 1;
      ghost var emitted, written, rest := cg.emitted, cg.disk.written, objfiles';
      fatal, objfiles' := EmitOne(cg, sources[i], objfiles');
      if fatal {
        run.Stopped(i, emitted, written, rest);
        return;
      }
      run.Continues(i, emitted, written, rest);
    }
    run.Finished(cg.emitted, cg.disk.written, objfiles');
  }

  /** What is written at once for a module, and the object files left. */
  function WrittenNow(singleObj: bool, before: seq<DModule>, s: Source, bitcodeFiles: seq<BitcodeFile>): seq<Written> {
    if ForHost(s) then Now(singleObj, before, s.m, bitcodeFiles) else []
  }

  function LeftBy(s: Source, objfiles: seq<ObjFile>): seq<ObjFile> {
    if !s.header && s.compute == DeviceOnly then Without(objfiles, s.file) else objfiles
  }

  /** One round of the loop. */
  method EmitOne(cg: CodeGenerator, s: Source, objfiles: seq<ObjFile>) returns (fatal: bool, objfiles': seq<ObjFile>)
    requires cg.Valid()
    modifies cg, cg.Owned(), cg.disk
    ensures fatal == Stops(s) && (!fatal ==> fresh(cg.Owned() - old(cg.Owned())))
    ensures fatal ==> cg.disk.written == old(cg.disk.written)
    ensures !fatal ==> cg.Valid() && cg.emitted == old(cg.emitted) + (if ForHost(s) then [s.m] else [])
    ensures !fatal ==>
      cg.disk.written == old(cg.disk.written) + WrittenNow(cg.singleObj, old(cg.emitted), s, cg.bitcodeFiles)
    ensures !fatal ==> objfiles' == LeftBy(s, objfiles)
  {
    fatal, objfiles' := false, objfiles;
    if s.header {
      return;
    }
    var errors := 0;
    if s.badAttr {
      errors := errors + 1;
    }
    if s.compute != DeviceOnly {
      fatal := cg.Emit(s.m, errors);
      if fatal {
        return;
      }
    }
    if s.compute == DeviceOnly {
      objfiles' := Remove(objfiles', s.file);
    }
    if errors > 0 {
      fatal := true;
    }
  }

  ghost predicate NoneStops(sources: seq<Source>) {
    forall s <- sources :: !Stops(s)
  }

  /** A run of the loop: what it is given, and what was written before. */
  datatype Run = Run(sources: seq<Source>, singleObj: bool, bitcodeFiles: seq<BitcodeFile>, objfiles: seq<ObjFile>,
                     before: seq<Written>) {

    /** The modules from i on have been completed. */
    ghost predicate At(i: nat, emitted: seq<DModule>, written: seq<Written>, rest: seq<ObjFile>) {
      && i <= |sources| && NoneStops(sources[i..]) && emitted == HostModules(sources[i..])
      && written == before + BeforeDestroy(singleObj, emitted, bitcodeFiles)
      && rest == Remaining(sources[i..], objfiles)
    }

    lemma Continues(i: nat, emitted: seq<DModule>, written: seq<Written>, rest: seq<ObjFile>)
      requires i < |sources| && At(i + 1, emitted, written, rest) && !Stops(sources[i])
      ensures
        var s := sources[i];
        At(i, emitted + (if ForHost(s) then [s.m] else []), written + WrittenNow(singleObj, emitted, s, bitcodeFiles),
           LeftBy(s, rest))
    {
      OneSource(sources, i, objfiles);
      if ForHost(sources[i]) {
        WrittenByOne(before, singleObj, emitted, sources[i].m, bitcodeFiles);
      } else {
        assert emitted + [] == emitted && written + [] == written;
      }
    }

    lemma Stopped(i: nat, emitted: seq<DModule>, written: seq<Written>, rest: seq<ObjFile>)
      requires i < |sources| && At(i + 1, emitted, written, rest) && Stops(sources[i])
      ensures |CompletedSources(sources)| < |sources|
      ensures before + RunFiles(sources, singleObj, bitcodeFiles, First(Remaining(sources, objfiles))) == written + []
    {
      StopsHere(sources, i);
      Assoc(before, BeforeDestroy(singleObj, emitted, bitcodeFiles), []);
    }

    lemma Finished(emitted: seq<DModule>, written: seq<Written>, rest: seq<ObjFile>)
      requires At(0, emitted, written, rest)
      ensures |CompletedSources(sources)| == |sources| && CompletedSources(sources) == sources
      ensures emitted == HostModules(sources) && rest == Remaining(sources, objfiles)
      ensures before + RunFiles(sources, singleObj, bitcodeFiles, First(rest)) ==
        written + AtDestroy(singleObj, emitted, bitcodeFiles, First(rest))
    {
      assert sources[0..] == sources;
      AllCompleted(sources);
      RunFilesParts(sources, singleObj, bitcodeFiles, First(rest));
      Assoc(before, BeforeDestroy(singleObj, emitted, bitcodeFiles),
            AtDestroy(singleObj, emitted, bitcodeFiles, First(rest)));
    }
  }

  lemma OneSource(sources: seq<Source>, i: nat, objfiles: seq<ObjFile>)
    requires i < |sources|
    ensures ForHost(sources[i]) ==> HostModules(sources[i..]) == HostModules(sources[i + 1..]) + [sources[i].m]
    ensures !ForHost(sources[i]) ==> HostModules(sources[i..]) == HostModules(sources[i + 1..])
    ensures NoneStops(sources[i..]) <==> !Stops(sources[i]) && NoneStops(sources[i + 1..])
    ensures Remaining(sources[i..], objfiles) == LeftBy(sources[i], Remaining(sources[i + 1..], objfiles))
  {
    assert sources[i..][1..] == sources[i + 1..];
    assert sources[i..] == [sources[i]] + sources[i + 1..];
  }

  /** If the modules behind i do not stop the run but module i does, those behind it are the completed ones. */
  lemma {:induction false} StopsHere(sources: seq<Source>, i: nat)
    requires i < |sources| && NoneStops(sources[i + 1..]) && Stops(sources[i])
    ensures CompletedSources(sources) == sources[i + 1..]
    decreases |sources|
  {
    var n := |sources| - 1;
    if i < n {
      var front := sources[..n];
      assert sources[n] == sources[i + 1..][n - i - 1] && sources[n] in sources[i + 1..];
      assert sources[i + 1..] == front[i + 1..] + [sources[n]];
      StopsHere(front, i);
    }
  }
}
