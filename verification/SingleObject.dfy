/** What stands where in the one object file of single-object mode, and in which order the lists are taken. */
module SingleObject {

  import opened CodeGenerator
  import opened CodegenRun
  import opened Common
  import opened LinkerMetadata
  import opened ObjectFiles

  // ---------------------------------------------------------------- the lists, part by part

  lemma OneMore(ms: seq<DModule>, m: DModule)
    ensures Units(ms + [m]) == Units(ms) + [Compiled(m.srcfile)]
    ensures Options(ms + [m]) == Options(ms) + m.linkerOptions
    ensures Libs(ms + [m]) == Libs(ms) + m.dependentLibs
  {
    assert (ms + [m])[..|ms|] == ms;
  }

  lemma OneAlone(m: DModule)
    ensures Units([]) == [] && Options([]) == [] && Libs([]) == []
    ensures Units([m]) == [Compiled(m.srcfile)] && Options([m]) == m.linkerOptions && Libs([m]) == m.dependentLibs
  {
    OneMore([], m);
    assert [] + [m] == [m];
  }

  lemma LastMoved(a: seq<DModule>, b: seq<DModule>)
    requires b != []
    ensures (a + b)[..|a + b| - 1] == a + b[..|b| - 1] && (a + b)[|a + b| - 1] == b[|b| - 1] && a + b != []
  {
  }

  lemma {:induction false} UnitsAppend(a: seq<DModule>, b: seq<DModule>)
    ensures Units(a + b) == Units(a) + Units(b)
    decreases |b|
  {
    if b == [] {
      assert a + b == a;
    } else {
      var front, last := b[..|b| - 1], b[|b| - 1];
      UnitsAppend(a, front);
      LastMoved(a, b);
      Assoc(Units(a), Units(front), [Compiled(last.srcfile)]);
    }
  }

  lemma {:induction false} OptionsAppend(a: seq<DModule>, b: seq<DModule>)
    ensures Options(a + b) == Options(a) + Options(b)
    decreases |b|
  {
    if b == [] {
      assert a + b == a;
    } else {
      var front, last := b[..|b| - 1], b[|b| - 1];
      OptionsAppend(a, front);
      LastMoved(a, b);
      Assoc(Options(a), Options(front), last.linkerOptions);
    }
  }

  lemma {:induction false} LibsAppend(a: seq<DModule>, b: seq<DModule>)
    ensures Libs(a + b) == Libs(a) + Libs(b)
    decreases |b|
  {
    if b == [] {
      assert a + b == a;
    } else {
      var front, last := b[..|b| - 1], b[|b| - 1];
      LibsAppend(a, front);
      LastMoved(a, b);
      Assoc(Libs(a), Libs(front), last.dependentLibs);
    }
  }

  lemma FirstBitcode(f: BitcodeFile, files: seq<BitcodeFile>, name: Name)
    ensures BitcodeUnits([f] + files) == [Bitcode(f.file)] + BitcodeUnits(files)
    ensures BitcodeOperands([f] + files, name) ==
      (if name in f.metadata then f.metadata[name] else []) + BitcodeOperands(files, name)
  {
    assert ([f] + files)[1..] == files;
  }

  lemma {:induction false} BitcodeAppend(a: seq<BitcodeFile>, b: seq<BitcodeFile>, name: Name)
    ensures BitcodeUnits(a + b) == BitcodeUnits(a) + BitcodeUnits(b)
    ensures BitcodeOperands(a + b, name) == BitcodeOperands(a, name) + BitcodeOperands(b, name)
    decreases |a|
  {
    if a == [] {
      assert a + b == b;
    } else {
      var first, rest := a[0], a[1..];
      BitcodeAppend(rest, b, name);
      FirstBitcode(first, rest, name);
      FirstBitcode(first, rest + b, name);
      assert a == [first] + rest && a + b == [first] + (rest + b);
      Assoc([Bitcode(first.file)], BitcodeUnits(rest), BitcodeUnits(b));
      Assoc(if name in first.metadata then first.metadata[name] else [], BitcodeOperands(rest, name), BitcodeOperands(b, name));
    }
  }

  lemma OneBitcode(f: BitcodeFile, name: Name)
    ensures BitcodeUnits([]) == [] && BitcodeOperands([], name) == []
    ensures BitcodeUnits([f]) == [Bitcode(f.file)]
    ensures BitcodeOperands([f], name) == if name in f.metadata then f.metadata[name] else []
  {
    assert [f][1..] == [];
  }

  /** The sources compiled for the host are those that are no headers and not for devices only, the last one first. */
  lemma {:induction false} HostsAppend(a: seq<Source>, b: seq<Source>, s: Source)
    ensures HostModules([]) == []
    ensures HostModules([s]) == if !s.header && s.compute != DeviceOnly then [s.m] else []
    ensures HostModules(a + b) == HostModules(b) + HostModules(a)
    decreases |a|
  {
    assert [s][1..] == [];
    if a == [] {
      assert a + b == b;
    } else {
      HostsAppend(a[1..], b, s);
      assert (a + b)[1..] == a[1..] + b;
    }
  }

  // ---------------------------------------------------------------- the lists taken from the command line

  ghost predicate Begins(files: seq<CmdFile>, more: seq<CmdFile>) {
    |files| <= |more| && forall k :: 0 <= k < |files| ==> more[k] == files[k]
  }

  lemma SamePlace(files: seq<CmdFile>, more: seq<CmdFile>, k: nat)
    requires Begins(files, more) && k < |files|
    ensures ModuleAt(more, k) == ModuleAt(files, k) && BitcodeAt(more, k) == BitcodeAt(files, k)
    ensures ObjectAt(more, k) == ObjectAt(files, k) && AnyAt(more, k) == AnyAt(files, k)
    ensures ToLinkAt(more, k) == ToLinkAt(files, k)
  {
  }

  lemma Longer<T>(here: seq<T>, rest: seq<T>, more: seq<T>, last: seq<T>)
    requires more == rest + last
    ensures here + more == here + rest + last
  {
  }

  lemma NothingInFront<T>(rest: seq<T>, last: seq<T>)
    requires rest == []
    ensures rest + last == last
  {
  }

  lemma {:induction false} ModulesBefore(files: seq<CmdFile>, more: seq<CmdFile>, k: nat)
    requires Begins(files, more) && k <= |files|
    ensures Modules(more, k) == Modules(files, k) + Modules(more, |files|)
    decreases |files| - k
  {
    if k < |files| {
      ModulesBefore(files, more, k + 1);
      SamePlace(files, more, k);
      Longer(ModuleAt(files, k), Modules(files, k + 1), Modules(more, k + 1), Modules(more, |files|));
    } else {
      NothingInFront(Modules(files, k), Modules(more, |files|));
    }
  }

  lemma {:induction false} BitcodeFilesBefore(files: seq<CmdFile>, more: seq<CmdFile>, k: nat)
    requires Begins(files, more) && k <= |files|
    ensures BitcodeFiles(more, k) == BitcodeFiles(files, k) + BitcodeFiles(more, |files|)
    decreases |files| - k
  {
    if k < |files| {
      BitcodeFilesBefore(files, more, k + 1);
      SamePlace(files, more, k);
      Longer(BitcodeAt(files, k), BitcodeFiles(files, k + 1), BitcodeFiles(more, k + 1), BitcodeFiles(more, |files|));
    } else {
      NothingInFront(BitcodeFiles(files, k), BitcodeFiles(more, |files|));
    }
  }

  lemma {:induction false} ObjectsBefore(files: seq<CmdFile>, more: seq<CmdFile>, k: nat)
    requires Begins(files, more) && k <= |files|
    ensures Objects(more, k) == Objects(files, k) + Objects(more, |files|)
    decreases |files| - k
  {
    if k < |files| {
      ObjectsBefore(files, more, k + 1);
      SamePlace(files, more, k);
      Longer(ObjectAt(files, k), Objects(files, k + 1), Objects(more, k + 1), Objects(more, |files|));
    } else {
      NothingInFront(Objects(files, k), Objects(more, |files|));
    }
  }

  lemma {:induction false} AllBefore(files: seq<CmdFile>, more: seq<CmdFile>, k: nat)
    requires Begins(files, more) && k <= |files|
    ensures All(more, k) == All(files, k) + All(more, |files|)
    decreases |files| - k
  {
    if k < |files| {
      AllBefore(files, more, k + 1);
      SamePlace(files, more, k);
      Longer(AnyAt(files, k), All(files, k + 1), All(more, k + 1), All(more, |files|));
    } else {
      NothingInFront(All(files, k), All(more, |files|));
    }
  }

  lemma {:induction false} ToLinkBefore(files: seq<CmdFile>, more: seq<CmdFile>, k: nat)
    requires Begins(files, more) && k <= |files|
    ensures ToLink(more, k) == ToLink(files, k) + ToLink(more, |files|)
    decreases |files| - k
  {
    if k < |files| {
      ToLinkBefore(files, more, k + 1);
      SamePlace(files, more, k);
      Longer(ToLinkAt(files, k), ToLink(files, k + 1), ToLink(more, k + 1), ToLink(more, |files|));
    } else {
      NothingInFront(ToLink(files, k), ToLink(more, |files|));
    }
  }

  /** In multi-object mode a further source file is left to be linked exactly if it is compiled for the host. */
  lemma LinkedAppend(files: seq<CmdFile>, f: CmdFile)
    ensures
      var k := |files|;
      LeftOver(files + [f], false) ==
        LeftOver(files, false) +
        (if f.ObjectArg? then [ObjFile(k, f.path)]
         else if f.SourceArg? && !f.header && f.compute != DeviceOnly then [ObjFile(k, f.m.objfile)] else [])
  {
    MultiLeftOver(files);
    MultiLeftOver(files + [f]);
    ToLinkBefore(files, files + [f], 0);
    assert ToLink(files + [f], |files| + 1) == [];
  }

  lemma LastPlace(files: seq<CmdFile>, f: CmdFile)
    ensures
      var more, k := files + [f], |files|;
      && Modules(more, k) == (if f.SourceArg? then [Source(k, f.m, f.header, f.compute, f.badAttr)] else [])
      && BitcodeFiles(more, k) == (if f.BitcodeArg? then [f.b] else [])
      && Objects(more, k) == (if f.ObjectArg? then [ObjFile(k, f.path)] else [])
      && All(more, k) == (if f.ObjectArg? then [ObjFile(k, f.path)] else if f.SourceArg? then [ObjFile(k, f.m.objfile)] else [])
  {
    NothingLeft(files + [f]);
  }

  /** One more file on the command line is the last one of its lists, under its own place. */
  lemma ListsAppend(files: seq<CmdFile>, f: CmdFile)
    ensures
      var more, k := files + [f], |files|;
      && Modules(more, 0) ==
        Modules(files, 0) + (if f.SourceArg? then [Source(k, f.m, f.header, f.compute, f.badAttr)] else [])
      && BitcodeFiles(more, 0) == BitcodeFiles(files, 0) + (if f.BitcodeArg? then [f.b] else [])
      && Objects(more, 0) == Objects(files, 0) + (if f.ObjectArg? then [ObjFile(k, f.path)] else [])
      && All(more, 0) ==
        All(files, 0) +
        (if f.ObjectArg? then [ObjFile(k, f.path)] else if f.SourceArg? then [ObjFile(k, f.m.objfile)] else [])
  {
    ModulesBefore(files, files + [f], 0);
    BitcodeFilesBefore(files, files + [f], 0);
    ObjectsBefore(files, files + [f], 0);
    AllBefore(files, files + [f], 0);
    LastPlace(files, f);
  }

  // ---------------------------------------------------------------- the one file

  /** Source k stands behind the later ones and in front of the earlier ones. */
  lemma HostSplit(sources: seq<Source>, k: nat)
    requires k < |sources| && !sources[k].header && sources[k].compute != DeviceOnly
    ensures HostModules(sources) == HostModules(sources[k + 1..]) + ([sources[k].m] + HostModules(sources[..k]))
  {
    var s := sources[k];
    assert sources[k..] == [s] + sources[k + 1..] && sources == sources[..k] + sources[k..];
    HostsAppend([s], sources[k + 1..], s);
    HostsAppend(sources[..k], sources[k..], s);
    Assoc(HostModules(sources[k + 1..]), [s.m], HostModules(sources[..k]));
  }

  /** In a list of modules the part of each stands behind the parts in front of it. */
  lemma PartsAt(a: seq<DModule>, m: DModule, b: seq<DModule>)
    ensures Units(a + ([m] + b)) == Units(a) + ([Compiled(m.srcfile)] + Units(b))
    ensures Options(a + ([m] + b)) == Options(a) + (m.linkerOptions + Options(b))
    ensures Libs(a + ([m] + b)) == Libs(a) + (m.dependentLibs + Libs(b))
  {
    OneAlone(m);
    UnitsAppend(a, [m] + b);
    UnitsAppend([m], b);
    OptionsAppend(a, [m] + b);
    OptionsAppend([m], b);
    LibsAppend(a, [m] + b);
    LibsAppend([m], b);
  }

  /** The image of the one file: what source k puts in stands behind what the later sources put in, and in front of what
      the earlier sources and the bitcode files put in. */
  lemma ImageAt(sources: seq<Source>, bitcodeFiles: seq<BitcodeFile>, k: nat)
    requires k < |sources| && !sources[k].header && sources[k].compute != DeviceOnly
    ensures
      var image := Finished(HostModules(sources), bitcodeFiles);
      var m, later, earlier := sources[k].m, HostModules(sources[k + 1..]), HostModules(sources[..k]);
      && image.units == Units(later) + ([Compiled(m.srcfile)] + Units(earlier)) + BitcodeUnits(bitcodeFiles)
      && Operands(image.metadata, LinkerOptions) ==
        Options(later) + (m.linkerOptions + Options(earlier)) + BitcodeOperands(bitcodeFiles, LinkerOptions)
      && Operands(image.metadata, DependentLibraries) ==
        Libs(later) + (m.dependentLibs + Libs(earlier)) + BitcodeOperands(bitcodeFiles, DependentLibraries)
  {
    HostSplit(sources, k);
    PartsAt(HostModules(sources[k + 1..]), sources[k].m, HostModules(sources[..k]));
    OperandsExactly(HostModules(sources), bitcodeFiles);
  }

  lemma {:induction false} UnitsAt(ms: seq<DModule>, i: nat)
    requires i < |ms|
    ensures |Units(ms)| == |ms| && Units(ms)[i] == Compiled(ms[i].srcfile)
    decreases |ms|
  {
    var n := |ms| - 1;
    if n == 0 {
      assert ms[..0] == [];
    } else {
      UnitsAt(ms[..n], if i < n then i else 0);
    }
  }

  /** The module stands in the image behind the later ones. */
  ghost predicate HoldsAt(m: DModule, later: seq<DModule>, image: Image) {
    && |later| < |image.units| && image.units[|later|] == Compiled(m.srcfile)
    && PartOf(m.linkerOptions, |Options(later)|, Operands(image.metadata, LinkerOptions))
    && PartOf(m.dependentLibs, |Libs(later)|, Operands(image.metadata, DependentLibraries))
  }

  ghost predicate PartOf(part: seq<Node>, i: nat, list: seq<Node>) {
    i + |part| <= |list| && list[i..i + |part|] == part
  }

  lemma PartBehind(a: seq<Node>, part: seq<Node>, b: seq<Node>, c: seq<Node>)
    ensures PartOf(part, |a|, a + (part + b) + c)
  {
  }

  lemma UnitBehind(a: seq<Unit>, u: Unit, b: seq<Unit>, c: seq<Unit>)
    ensures (a + ([u] + b) + c)[|a|] == u
  {
  }

  lemma UnitsLength(ms: seq<DModule>)
    ensures |Units(ms)| == |ms|
  {
    if ms != [] {
      UnitsAt(ms, 0);
    }
  }

  lemma ImageHolds(sources: seq<Source>, bitcodeFiles: seq<BitcodeFile>, k: nat)
    requires k < |sources| && !sources[k].header && sources[k].compute != DeviceOnly
    ensures HoldsAt(sources[k].m, HostModules(sources[k + 1..]), Finished(HostModules(sources), bitcodeFiles))
  {
    var m, later, earlier := sources[k].m, HostModules(sources[k + 1..]), HostModules(sources[..k]);
    ImageAt(sources, bitcodeFiles, k);
    UnitsLength(later);
    UnitBehind(Units(later), Compiled(m.srcfile), Units(earlier), BitcodeUnits(bitcodeFiles));
    PartBehind(Options(later), m.linkerOptions, Options(earlier), BitcodeOperands(bitcodeFiles, LinkerOptions));
    PartBehind(Libs(later), m.dependentLibs, Libs(earlier), BitcodeOperands(bitcodeFiles, DependentLibraries));
  }

  /** A whole single-object compilation that no module stops, with a source k compiled for the host: it writes one file.
      The unit of source k has as many units in front of it as there are later host sources, and its linker options and
      libraries stand behind theirs. */
  lemma SingleFileAt(files: seq<CmdFile>, k: nat)
    requires NoneStops(Modules(files, 0)) && k < |Modules(files, 0)|
    requires !Modules(files, 0)[k].header && Modules(files, 0)[k].compute != DeviceOnly
    ensures
      var sources := Modules(files, 0);
      var out := Output(sources, true, true, BitcodeFiles(files, 0), First(LeftOver(files, true)));
      |out| == 1 && HoldsAt(sources[k].m, HostModules(sources[k + 1..]), out[0].image)
  {
    var sources := Modules(files, 0);
    HostSplit(sources, k);
    OneFile(sources, BitcodeFiles(files, 0), First(LeftOver(files, true)));
    ImageHolds(sources, BitcodeFiles(files, 0), k);
  }

  lemma OneFile(sources: seq<Source>, bitcodeFiles: seq<BitcodeFile>, first: Option<string>)
    requires NoneStops(sources) && HostModules(sources) != []
    ensures Output(sources, true, true, bitcodeFiles, first) == [Written(first, Finished(HostModules(sources), bitcodeFiles))]
  {
    RunFilesExactly(sources, true, bitcodeFiles, first);
  }
}
