/** The list of object files: how the driver fills it (`createModules` in dmd/mars.d), drops headers from it (dmd/main.d),
    and what is left of it after code generation. */
module ObjectFiles {

  import opened CodeGenerator
  import opened CodegenRun
  import opened Common
  import opened LinkerMetadata

  /** A file on the command line. */
  datatype CmdFile =
    | ObjectArg(path: string)
    | BitcodeArg(b: BitcodeFile)
    | SourceArg(m: DModule, header: bool, compute: Compute, badAttr: bool)

  // ---------------------------------------------------------------- what is on the command line, from place k on

  function ModuleAt(files: seq<CmdFile>, k: nat): seq<Source>
    requires k < |files|
  {
    var f := files[k];
    if f.SourceArg? then [Source(k, f.m, f.header, f.compute, f.badAttr)] else []
  }

  function Modules(files: seq<CmdFile>, k: nat): seq<Source>
    decreases |files| - k
  {
    if k >= |files| then [] else ModuleAt(files, k) + Modules(files, k + 1)
  }

  function BitcodeAt(files: seq<CmdFile>, k: nat): seq<BitcodeFile>
    requires k < |files|
  {
    if files[k].BitcodeArg? then [files[k].b] else []
  }

  function BitcodeFiles(files: seq<CmdFile>, k: nat): seq<BitcodeFile>
    decreases |files| - k
  {
    if k >= |files| then [] else BitcodeAt(files, k) + BitcodeFiles(files, k + 1)
  }

  function ObjectAt(files: seq<CmdFile>, k: nat): seq<ObjFile>
    requires k < |files|
  {
    if files[k].ObjectArg? then [ObjFile(k, files[k].path)] else []
  }

  /** The object files given. */
  function Objects(files: seq<CmdFile>, k: nat): seq<ObjFile>
    decreases |files| - k
  {
    if k >= |files| then [] else ObjectAt(files, k) + Objects(files, k + 1)
  }

  function AnyAt(files: seq<CmdFile>, k: nat): seq<ObjFile>
    requires k < |files|
  {
    if files[k].SourceArg? then [ObjFile(k, files[k].m.objfile)] else ObjectAt(files, k)
  }

  /** The object files given and those of the modules, in order. */
  function All(files: seq<CmdFile>, k: nat): seq<ObjFile>
    decreases |files| - k
  {
    if k >= |files| then [] else AnyAt(files, k) + All(files, k + 1)
  }

  function Own(s: Source): ObjFile {
    ObjFile(s.file, s.m.objfile)
  }

  /** The list after all files have been looked at: in single-object mode it begins with the first module's. */
  function Created(files: seq<CmdFile>, oneobj: bool): seq<ObjFile> {
    var modules := Modules(files, 0);
    if !oneobj then All(files, 0)
    else (if modules == [] then [] else [Own(modules[0])]) + Objects(files, 0)
  }

  // ---------------------------------------------------------------- the driver

  /** Sorts the files of the command line. In single-object mode only the first module's object file is listed, and
      moved to the front. */
  method CreateModules(files: seq<CmdFile>, oneobj: bool)
      returns (modules: seq<Source>, bitcodeFiles: seq<BitcodeFile>, objfiles: seq<ObjFile>)
    ensures modules == Modules(files, 0) && bitcodeFiles == BitcodeFiles(files, 0)
    ensures objfiles == Created(files, oneobj)
  {
    modules, bitcodeFiles, objfiles := [], [], [];
    var first := -1;
    for k := 0 to |files|
      invariant Sorting(files, oneobj, k, modules, bitcodeFiles, objfiles, first)
    {
      SortOne(files, oneobj, k, modules, bitcodeFiles, objfiles, first);
      var f := files[k];
      if f.ObjectArg? {
        objfiles := objfiles + [ObjFile(k, f.path)];
      } else if f.BitcodeArg? {
        bitcodeFiles := bitcodeFiles + [f.b];
      } else {
        modules := modules + [Source(k, f.m, f.header, f.compute, f.badAttr)];
        if !oneobj || first == -1 {
          objfiles := objfiles + [ObjFile(k, f.m.objfile)];
          if first == -1 {
            first := |objfiles| - 1;
          }
        }
      }
    }
    Sorted(files, oneobj, modules, bitcodeFiles, objfiles, first);
    if oneobj && modules != [] && first != 0 {
      var fn := objfiles[first];
      objfiles := objfiles[..first] + objfiles[first + 1..];
      objfiles := [fn] + objfiles;
    }
  }

  /** The lists being filled; `first` is the place of the first module's object file. */
  ghost predicate Sorting(files: seq<CmdFile>, oneobj: bool, k: nat, modules: seq<Source>, bitcodeFiles: seq<BitcodeFile>,
                          objfiles: seq<ObjFile>, first: int) {
    && Modules(files, 0) == modules + Modules(files, k)
    && BitcodeFiles(files, 0) == bitcodeFiles + BitcodeFiles(files, k)
    && -1 <= first < |objfiles| && (first == -1 <==> modules == [])
    && (!oneobj ==> All(files, 0) == objfiles + All(files, k))
    && (oneobj ==> Collecting(files, k, modules, objfiles, first))
  }

  /** In single-object mode the list holds the given object files, and the first module's at `first`. */
  ghost predicate Collecting(files: seq<CmdFile>, k: nat, modules: seq<Source>, objfiles: seq<ObjFile>, first: int)
    requires -1 <= first < |objfiles| && (first == -1 <==> modules == [])
  {
    && (first != -1 ==> objfiles[first] == Own(modules[0]))
    && Objects(files, 0) == Others(objfiles, first) + Objects(files, k)
  }

  /** The list without the element at a place. */
  function Others(objfiles: seq<ObjFile>, first: int): seq<ObjFile>
    requires -1 <= first < |objfiles|
  {
    if first == -1 then objfiles else objfiles[..first] + objfiles[first + 1..]
  }

  lemma OthersPut(objfiles: seq<ObjFile>, first: int, o: ObjFile)
    requires -1 <= first < |objfiles|
    ensures Others(objfiles + [o], first) == Others(objfiles, first) + [o]
    ensures Others(objfiles + [o], |objfiles|) == objfiles
  {
  }

  /** Once all files have been looked at, only the first module's object file may have to be moved. */
  lemma Sorted(files: seq<CmdFile>, oneobj: bool, modules: seq<Source>, bitcodeFiles: seq<BitcodeFile>,
               objfiles: seq<ObjFile>, first: int)
    requires Sorting(files, oneobj, |files|, modules, bitcodeFiles, objfiles, first)
    ensures modules == Modules(files, 0) && bitcodeFiles == BitcodeFiles(files, 0)
    ensures Created(files, oneobj) ==
      if oneobj && modules != [] && first != 0 then [objfiles[first]] + Others(objfiles, first) else objfiles
  {
    NothingLeft(files);
    assert modules + [] == modules && bitcodeFiles + [] == bitcodeFiles;
    if oneobj {
      Collected(files, modules, objfiles, first);
      assert modules == [] ==> [] + Objects(files, 0) == Objects(files, 0);
    } else {
      assert objfiles + [] == objfiles;
    }
  }

  lemma NothingLeft(files: seq<CmdFile>)
    ensures Modules(files, |files|) == [] && BitcodeFiles(files, |files|) == []
    ensures Objects(files, |files|) == [] && All(files, |files|) == []
  {
  }

  lemma Collected(files: seq<CmdFile>, modules: seq<Source>, objfiles: seq<ObjFile>, first: int)
    requires -1 <= first < |objfiles| && (first == -1 <==> modules == [])
    requires Collecting(files, |files|, modules, objfiles, first)
    ensures Others(objfiles, first) == Objects(files, 0)
    ensures first != -1 ==> objfiles[first] == Own(modules[0])
    ensures first == -1 ==> objfiles == Others(objfiles, first)
    ensures first == 0 ==> objfiles == [objfiles[0]] + Others(objfiles, first)
  {
    NothingLeft(files);
    assert Others(objfiles, first) + [] == Others(objfiles, first);
    if first == 0 {
      FirstAndOthers(objfiles);
    }
  }

  lemma FirstAndOthers(objfiles: seq<ObjFile>)
    requires objfiles != []
    ensures objfiles == [objfiles[0]] + Others(objfiles, 0)
  {
  }

  lemma SortOne(files: seq<CmdFile>, oneobj: bool, k: nat, modules: seq<Source>, bitcodeFiles: seq<BitcodeFile>,
                objfiles: seq<ObjFile>, first: int)
    requires k < |files| && Sorting(files, oneobj, k, modules, bitcodeFiles, objfiles, first)
    ensures
      var f := files[k];
      && (f.ObjectArg? ==> Sorting(files, oneobj, k + 1, modules, bitcodeFiles, objfiles + [ObjFile(k, f.path)], first))
      && (f.BitcodeArg? ==> Sorting(files, oneobj, k + 1, modules, bitcodeFiles + [f.b], objfiles, first))
      && (f.SourceArg? ==>
            var modules' := modules + [Source(k, f.m, f.header, f.compute, f.badAttr)];
            if oneobj && first != -1 then Sorting(files, oneobj, k + 1, modules', bitcodeFiles, objfiles, first)
            else Sorting(files, oneobj, k + 1, modules', bitcodeFiles, objfiles + [ObjFile(k, f.m.objfile)],
                         if first == -1 then |objfiles| else first))
  {
    Assoc(modules, ModuleAt(files, k), Modules(files, k + 1));
    Assoc(bitcodeFiles, BitcodeAt(files, k), BitcodeFiles(files, k + 1));
    Assoc(objfiles, AnyAt(files, k), All(files, k + 1));
    assert modules + [] == modules && bitcodeFiles + [] == bitcodeFiles && objfiles + [] == objfiles;
    if oneobj {
      CollectOne(files, k, modules, objfiles, first);
    }
  }

  lemma CollectOne(files: seq<CmdFile>, k: nat, modules: seq<Source>, objfiles: seq<ObjFile>, first: int)
    requires k < |files| && -1 <= first < |objfiles| && (first == -1 <==> modules == [])
    requires Collecting(files, k, modules, objfiles, first)
    ensures
      var f := files[k];
      && (f.ObjectArg? ==> Collecting(files, k + 1, modules, objfiles + [ObjFile(k, f.path)], first))
      && (f.BitcodeArg? ==> Collecting(files, k + 1, modules, objfiles, first))
      && (f.SourceArg? ==>
            var modules' := modules + [Source(k, f.m, f.header, f.compute, f.badAttr)];
            if first != -1 then Collecting(files, k + 1, modules', objfiles, first)
            else Collecting(files, k + 1, modules', objfiles + [ObjFile(k, f.m.objfile)], |objfiles|))
  {
    var here, rest := ObjectAt(files, k), Objects(files, k + 1);
    Assoc(Others(objfiles, first), here, rest);
    if files[k].SourceArg? {
      OthersPut(objfiles, first, ObjFile(k, files[k].m.objfile));
    } else if files[k].ObjectArg? {
      OthersPut(objfiles, first, here[0]);
    }
    assert Others(objfiles, first) + [] == Others(objfiles, first);
  }

  /** The list without the object files of headers. */
  function WithoutHeaders(modules: seq<Source>, objfiles: seq<ObjFile>): seq<ObjFile>
    decreases |modules|
  {
    if modules == [] then objfiles
    else WithoutHeaders(modules[1..], if modules[0].header then Without(objfiles, modules[0].file) else objfiles)
  }

  /** Drops the object files of headers once the modules have been parsed; nothing is linked if none is left. */
  method DropHeaders(modules: seq<Source>, objfiles: seq<ObjFile>, link: bool)
      returns (objfiles': seq<ObjFile>, link': bool)
    ensures objfiles' == WithoutHeaders(modules, objfiles)
    ensures link' == (link && !((exists s <- modules :: s.header) && objfiles' == []))
  {
    objfiles', link' := objfiles, link;
    for i := 0 to |modules|
      invariant WithoutHeaders(modules, objfiles) == WithoutHeaders(modules[i..], objfiles')
      invariant link' == (link && !((exists s <- modules[..i] :: s.header) && objfiles' == []))
    {
      assert modules[i..][1..] == modules[i + 1..];
      assert forall s :: s in modules[..i + 1] <==> s in modules[..i] || s == modules[i];
      if modules[i].header {
        objfiles' := Remove(objfiles', modules[i].file);
        if objfiles' == [] {
          link' := false;
        }
      }
    }
    assert modules[..|modules|] == modules;
  }

  /** The object files left in the end, to be linked. */
  function LeftOver(files: seq<CmdFile>, oneobj: bool): seq<ObjFile> {
    var modules := Modules(files, 0);
    Remaining(modules, WithoutHeaders(modules, Created(files, oneobj)))
  }

  /** A whole compilation, as far as object files go. */
  method Compile(files: seq<CmdFile>, obj: bool, oneobj: bool, link: bool, disk: Disk)
      returns (fatal: bool, objfiles: seq<ObjFile>, link': bool)
    modifies disk
    ensures fatal == (obj && |CompletedSources(Modules(files, 0))| < |Modules(files, 0)|)
    ensures !fatal && obj ==> objfiles == LeftOver(files, oneobj)
    ensures !fatal ==>
      var modules := Modules(files, 0);
      var noneParsed := WithoutHeaders(modules, Created(files, oneobj)) == [];
      link' == (link && !((exists s <- modules :: s.header) && noneParsed) && !(obj && modules != [] && objfiles == []))
    ensures disk.written ==
      old(disk.written) +
      Output(Modules(files, 0), obj, oneobj, BitcodeFiles(files, 0), First(LeftOver(files, oneobj)))
  {
    var modules, bitcodeFiles;
    modules, bitcodeFiles, objfiles := CreateModules(files, oneobj);
    objfiles, link' := DropHeaders(modules, objfiles, link);
    fatal, objfiles, link' := CodegenModules(modules, obj, oneobj, bitcodeFiles, objfiles, link', disk);
  }

  // ---------------------------------------------------------------- what is left in the end

  ghost predicate Distinct(list: seq<ObjFile>) {
    forall i, j :: 0 <= i < j < |list| ==> list[i].file != list[j].file
  }

  /** The elements at other addresses. */
  function Drop(list: seq<ObjFile>, drop: set<nat>): seq<ObjFile> {
    if list == [] then [] else (if list[0].file in drop then [] else [list[0]]) + Drop(list[1..], drop)
  }

  lemma {:induction false} DropMembers(list: seq<ObjFile>, drop: set<nat>, o: ObjFile)
    ensures o in Drop(list, drop) <==> o in list && o.file !in drop
    decreases |list|
  {
    if list != [] {
      DropMembers(list[1..], drop, o);
      assert list == [list[0]] + list[1..];
    }
  }

  lemma {:induction false} DropNone(list: seq<ObjFile>, drop: set<nat>)
    requires forall o <- list :: o.file !in drop
    ensures Drop(list, drop) == list
    decreases |list|
  {
    if list != [] {
      assert list[0] in list && forall o <- list[1..] :: o in list;
      DropNone(list[1..], drop);
      assert list == [list[0]] + list[1..];
    }
  }

  lemma {:induction false} DropTwice(list: seq<ObjFile>, a: set<nat>, b: set<nat>)
    ensures Drop(Drop(list, a), b) == Drop(list, a + b)
    decreases |list|
  {
    if list != [] {
      DropTwice(list[1..], a, b);
      if list[0].file !in a {
        assert ([list[0]] + Drop(list[1..], a))[1..] == Drop(list[1..], a);
      } else {
        assert [] + Drop(list[1..], a) == Drop(list[1..], a);
      }
    }
  }

  lemma {:induction false} DropDistinct(list: seq<ObjFile>, drop: set<nat>)
    requires Distinct(list)
    ensures Distinct(Drop(list, drop))
    decreases |list|
  {
    if list != [] {
      DropDistinct(list[1..], drop);
      forall o | o in Drop(list[1..], drop) ensures o.file != list[0].file {
        DropMembers(list[1..], drop, o);
      }
    }
  }

  /** With distinct addresses removing the first match drops all. */
  lemma {:induction false} WithoutIsDrop(list: seq<ObjFile>, file: nat)
    requires Distinct(list)
    ensures Without(list, file) == Drop(list, {file})
    decreases |list|
  {
    if list != [] {
      if list[0].file == file {
        DropNone(list[1..], {file});
      } else {
        WithoutIsDrop(list[1..], file);
      }
    }
  }

  function HeaderFiles(modules: seq<Source>): set<nat> {
    set s <- modules | s.header :: s.file
  }

  function DeviceFiles(modules: seq<Source>): set<nat> {
    set s <- modules | !s.header && s.compute == DeviceOnly :: s.file
  }

  lemma {:induction false} HeadersDropped(modules: seq<Source>, list: seq<ObjFile>)
    requires Distinct(list)
    ensures WithoutHeaders(modules, list) == Drop(list, HeaderFiles(modules))
    decreases |modules|
  {
    if modules == [] {
      DropNone(list, HeaderFiles(modules));
    } else {
      var s := modules[0];
      assert modules == [s] + modules[1..];
      if s.header {
        WithoutIsDrop(list, s.file);
        DropDistinct(list, {s.file});
        HeadersDropped(modules[1..], Drop(list, {s.file}));
        DropTwice(list, {s.file}, HeaderFiles(modules[1..]));
        assert HeaderFiles(modules) == {s.file} + HeaderFiles(modules[1..]);
      } else {
        HeadersDropped(modules[1..], list);
        assert HeaderFiles(modules) == HeaderFiles(modules[1..]);
      }
    }
  }

  lemma {:induction false} DevicesDropped(modules: seq<Source>, list: seq<ObjFile>)
    requires Distinct(list)
    ensures Remaining(modules, list) == Drop(list, DeviceFiles(modules))
    decreases |modules|
  {
    if modules == [] {
      DropNone(list, DeviceFiles(modules));
    } else {
      var s := modules[0];
      var rest := DeviceFiles(modules[1..]);
      assert modules == [s] + modules[1..];
      DevicesDropped(modules[1..], list);
      if !s.header && s.compute == DeviceOnly {
        DropDistinct(list, rest);
        WithoutIsDrop(Drop(list, rest), s.file);
        DropTwice(list, rest, {s.file});
        assert DeviceFiles(modules) == rest + {s.file};
      } else {
        assert DeviceFiles(modules) == rest;
      }
    }
  }

  // Which addresses the lists hold.

  /** A module stands for the source file at its place. */
  predicate Stands(files: seq<CmdFile>, s: Source) {
    s.file < |files| && ModuleAt(files, s.file) == [s]
  }

  lemma {:induction false} ModulesExactly(files: seq<CmdFile>, k: nat, s: Source)
    ensures s in Modules(files, k) <==> k <= s.file && Stands(files, s)
    decreases |files| - k
  {
    if k < |files| {
      ModulesExactly(files, k + 1, s);
      assert s in Modules(files, k) <==> s in ModuleAt(files, k) || s in Modules(files, k + 1);
      ModuleOnlyAt(files, k, s);
    }
  }

  lemma ModuleOnlyAt(files: seq<CmdFile>, k: nat, s: Source)
    requires k < |files|
    ensures s in ModuleAt(files, k) <==> s.file == k && Stands(files, s)
  {
  }

  /** What stands at place k has that address. */
  lemma OnlyAt(files: seq<CmdFile>, k: nat, o: ObjFile)
    requires k < |files|
    ensures o in ObjectAt(files, k) <==> o.file == k && ObjectAt(files, k) == [o]
    ensures o in AnyAt(files, k) <==> o.file == k && AnyAt(files, k) == [o]
  {
  }

  lemma {:induction false} ObjectsExactly(files: seq<CmdFile>, k: nat, o: ObjFile)
    ensures o in Objects(files, k) <==> k <= o.file < |files| && ObjectAt(files, o.file) == [o]
    decreases |files| - k
  {
    if k < |files| {
      ObjectsExactly(files, k + 1, o);
      assert o in Objects(files, k) <==> o in ObjectAt(files, k) || o in Objects(files, k + 1);
      OnlyAt(files, k, o);
    }
  }

  lemma {:induction false} AllExactly(files: seq<CmdFile>, k: nat, o: ObjFile)
    ensures o in All(files, k) <==> k <= o.file < |files| && AnyAt(files, o.file) == [o]
    decreases |files| - k
  {
    if k < |files| {
      AllExactly(files, k + 1, o);
      assert o in All(files, k) <==> o in AnyAt(files, k) || o in All(files, k + 1);
      OnlyAt(files, k, o);
    }
  }

  lemma {:induction false} ObjectsDistinct(files: seq<CmdFile>, k: nat)
    ensures Distinct(Objects(files, k))
    decreases |files| - k
  {
    if k < |files| {
      ObjectsDistinct(files, k + 1);
      forall o | o in Objects(files, k + 1) ensures o.file > k { ObjectsExactly(files, k + 1, o); }
    }
  }

  lemma {:induction false} AllDistinct(files: seq<CmdFile>, k: nat)
    ensures Distinct(All(files, k))
    decreases |files| - k
  {
    if k < |files| {
      AllDistinct(files, k + 1);
      forall o | o in All(files, k + 1) ensures o.file > k { AllExactly(files, k + 1, o); }
    }
  }

  lemma CreatedDistinct(files: seq<CmdFile>, oneobj: bool)
    ensures Distinct(Created(files, oneobj))
  {
    AllDistinct(files, 0);
    ObjectsDistinct(files, 0);
    var modules := Modules(files, 0);
    if modules != [] {
      ModulesExactly(files, 0, modules[0]);
      forall o | o in Objects(files, 0) ensures o.file != modules[0].file { ObjectsExactly(files, 0, o); }
    }
  }

  /** The places of the source files that are not compiled for the host. */
  function Dropped(files: seq<CmdFile>): set<nat> {
    set s <- Modules(files, 0) | !ForHost(s) :: s.file
  }

  lemma LeftOverIsDrop(files: seq<CmdFile>, oneobj: bool)
    ensures LeftOver(files, oneobj) == Drop(Created(files, oneobj), Dropped(files))
  {
    var modules, list := Modules(files, 0), Created(files, oneobj);
    CreatedDistinct(files, oneobj);
    HeadersDropped(modules, list);
    DropDistinct(list, HeaderFiles(modules));
    DevicesDropped(modules, Drop(list, HeaderFiles(modules)));
    DropTwice(list, HeaderFiles(modules), DeviceFiles(modules));
    assert HeaderFiles(modules) + DeviceFiles(modules) == Dropped(files);
  }

  lemma DroppedExactly(files: seq<CmdFile>, s: Source)
    requires Stands(files, s)
    ensures s.file in Dropped(files) <==> !ForHost(s)
  {
    ModulesExactly(files, 0, s);
    forall t | t in Modules(files, 0) && t.file == s.file ensures t == s {
      ModulesExactly(files, 0, t);
    }
  }

  lemma ObjectNotDropped(files: seq<CmdFile>, o: ObjFile)
    requires o in Objects(files, 0)
    ensures o.file !in Dropped(files)
  {
    ObjectsExactly(files, 0, o);
    forall t | t in Modules(files, 0) ensures t.file != o.file { ModulesExactly(files, 0, t); }
  }

  /** In single-object mode the list ends up with the given object files, behind that of the first module exactly if
      that module is compiled for the host. */
  lemma SingleLeftOver(files: seq<CmdFile>)
    ensures
      var modules := Modules(files, 0);
      LeftOver(files, true) ==
        (if modules != [] && ForHost(modules[0]) then [Own(modules[0])] else []) + Objects(files, 0)
  {
    var modules, objects := Modules(files, 0), Objects(files, 0);
    LeftOverIsDrop(files, true);
    forall o | o in objects ensures o.file !in Dropped(files) { ObjectNotDropped(files, o); }
    DropNone(objects, Dropped(files));
    if modules != [] {
      ModulesExactly(files, 0, modules[0]);
      DroppedExactly(files, modules[0]);
      assert ([Own(modules[0])] + objects)[1..] == objects;
    }
  }

  /** The name of the single object file: that of the first module exactly if that is compiled for the host. Otherwise
      the code names it after the first object file given, which it overwrites, or reads behind the end of the list. */
  lemma NamedExactly(files: seq<CmdFile>)
    requires Modules(files, 0) != []
    ensures
      var first, objects := Modules(files, 0)[0], Objects(files, 0);
      First(LeftOver(files, true)) ==
        if ForHost(first) then Some(first.m.objfile)
        else if objects != [] then Some(objects[0].name)
        else None
    ensures LeftOver(files, true) != [] && LeftOver(files, true)[0] == Own(Modules(files, 0)[0]) <==>
      ForHost(Modules(files, 0)[0])
  {
    SingleLeftOver(files);
    var first := Modules(files, 0)[0];
    ModulesExactly(files, 0, first);
    forall o | o in Objects(files, 0) ensures o != Own(first) { ObjectsExactly(files, 0, o); }
    if !ForHost(first) {
      assert LeftOver(files, true) == Objects(files, 0);
      if Objects(files, 0) != [] { assert Objects(files, 0)[0] in Objects(files, 0); }
    }
  }

  /** The files a whole single-object compilation writes, if none of its modules stops it. */
  lemma SingleFileExactly(files: seq<CmdFile>)
    requires NoneStops(Modules(files, 0)) && HostModules(Modules(files, 0)) != []
    ensures
      var modules, bitcodeFiles, objects := Modules(files, 0), BitcodeFiles(files, 0), Objects(files, 0);
      modules != [] &&
      var name := if ForHost(modules[0]) then Some(modules[0].m.objfile)
                  else if objects != [] then Some(objects[0].name) else None;
      Output(modules, true, true, bitcodeFiles, First(LeftOver(files, true))) ==
        [Written(name, Finished(HostModules(modules), bitcodeFiles))]
  {
    NamedExactly(files);
    RunFilesExactly(Modules(files, 0), true, BitcodeFiles(files, 0), First(LeftOver(files, true)));
  }

  // Inputs for which the single object file is not named after the first source file.

  /** A header or a module for devices only in front of a module for the host. */
  function TwoSources(m: DModule, header: bool, m2: DModule): seq<CmdFile> {
    [SourceArg(m, header, if header then HostOnly else DeviceOnly, false), SourceArg(m2, false, HostOnly, false)]
  }

  lemma LastTwo(files: seq<CmdFile>, n: nat, m: DModule, header: bool, m2: DModule)
    requires |files| == n + 2 && files[n..] == TwoSources(m, header, m2)
    ensures
      var modules := Modules(files, n);
      && |modules| == 2 && !ForHost(modules[0]) && !Stops(modules[0])
      && modules[1] == Source(n + 1, m2, false, HostOnly, false)
      && Objects(files, n) == [] && BitcodeFiles(files, n) == []
  {
    assert files[n] == files[n..][0] && files[n + 1] == files[n..][1];
    assert Modules(files, n + 2) == [] && Objects(files, n + 2) == [] && BitcodeFiles(files, n + 2) == [];
    assert Modules(files, n + 1) == [Source(n + 1, m2, false, HostOnly, false)];
    assert Objects(files, n + 1) == [] && BitcodeFiles(files, n + 1) == [];
  }

  lemma TwoModules(m: DModule, header: bool, m2: DModule, objects: seq<CmdFile>)
    requires objects == [] || (|objects| == 1 && objects[0].ObjectArg?)
    ensures
      var files := objects + TwoSources(m, header, m2);
      && |Modules(files, 0)| == 2 && !ForHost(Modules(files, 0)[0]) && !Stops(Modules(files, 0)[0])
      && Modules(files, 0)[1] == Source(|objects| + 1, m2, false, HostOnly, false)
      && Objects(files, 0) == (if objects == [] then [] else [ObjFile(0, objects[0].path)])
      && BitcodeFiles(files, 0) == []
  {
    var files := objects + TwoSources(m, header, m2);
    LastTwo(files, |objects|, m, header, m2);
    assert objects != [] ==> Modules(files, 0) == [] + Modules(files, 1);
  }

  /** Then there is no element to name the object file after. */
  lemma SingleFileUnnamed(m: DModule, header: bool, m2: DModule)
    requires !m2.fails
    ensures
      var files := TwoSources(m, header, m2);
      Output(Modules(files, 0), true, true, [], First(LeftOver(files, true))) == [Written(None, Finished([m2], []))]
  {
    var files := TwoSources(m, header, m2);
    assert [] + files == files;
    TwoModules(m, header, m2, []);
    OnlySecond(Modules(files, 0));
    SingleFileExactly(files);
  }

  /** With an object file on the command line, that file is overwritten. */
  lemma InputOverwritten(path: string, m: DModule, header: bool, m2: DModule)
    requires !m2.fails
    ensures
      var files := [ObjectArg(path)] + TwoSources(m, header, m2);
      Output(Modules(files, 0), true, true, [], First(LeftOver(files, true))) == [Written(Some(path), Finished([m2], []))]
  {
    var files := [ObjectArg(path)] + TwoSources(m, header, m2);
    TwoModules(m, header, m2, [ObjectArg(path)]);
    OnlySecond(Modules(files, 0));
    SingleFileExactly(files);
  }

  lemma OnlySecond(sources: seq<Source>)
    requires |sources| == 2 && !ForHost(sources[0]) && ForHost(sources[1])
    ensures HostModules(sources) == [sources[1].m]
    ensures !Stops(sources[0]) && !Stops(sources[1]) ==> NoneStops(sources)
  {
    var rest := sources[1..];
    assert rest[0] == sources[1] && rest[1..] == [];
    assert HostModules(rest[1..]) == [] && HostModules(rest) == [sources[1].m];
  }

  // ---------------------------------------------------------------- multi-object mode

  function ToLinkAt(files: seq<CmdFile>, k: nat): seq<ObjFile>
    requires k < |files|
  {
    if files[k].SourceArg? && !ForHost(ModuleAt(files, k)[0]) then [] else AnyAt(files, k)
  }

  /** The given object files, and those of the modules compiled for the host, in the order of the command line. */
  function ToLink(files: seq<CmdFile>, k: nat): seq<ObjFile>
    decreases |files| - k
  {
    if k >= |files| then [] else ToLinkAt(files, k) + ToLink(files, k + 1)
  }

  /** In multi-object mode exactly these are left to be linked. */
  lemma MultiLeftOver(files: seq<CmdFile>)
    ensures LeftOver(files, false) == ToLink(files, 0)
  {
    LeftOverIsDrop(files, false);
    AllDropped(files, 0);
  }

  lemma {:induction false} AllDropped(files: seq<CmdFile>, k: nat)
    ensures Drop(All(files, k), Dropped(files)) == ToLink(files, k)
    decreases |files| - k
  {
    if k < |files| {
      AllDropped(files, k + 1);
      var rest := All(files, k + 1);
      if files[k].SourceArg? {
        DroppedExactly(files, ModuleAt(files, k)[0]);
        assert ([AnyAt(files, k)[0]] + rest)[1..] == rest;
      } else if files[k].ObjectArg? {
        var o := ObjectAt(files, k)[0];
        ObjectsExactly(files, 0, o);
        ObjectNotDropped(files, o);
        assert ([o] + rest)[1..] == rest;
      } else {
        assert [] + rest == rest;
      }
    }
  }

  /** A source's own object file is left to be linked exactly if it is compiled for the host. */
  lemma LinkedExactly(files: seq<CmdFile>, s: Source)
    requires Stands(files, s)
    ensures Own(s) in LeftOver(files, false) <==> ForHost(s)
  {
    LeftOverIsDrop(files, false);
    DropMembers(All(files, 0), Dropped(files), Own(s));
    DroppedExactly(files, s);
    AllExactly(files, 0, Own(s));
  }

  /** The source an object file is of, if it is of one. */
  function SourceOf(files: seq<CmdFile>, o: ObjFile): seq<Source> {
    if o.file < |files| && files[o.file].SourceArg? && o.name == files[o.file].m.objfile then ModuleAt(files, o.file) else []
  }

  function SourcesOf(files: seq<CmdFile>, list: seq<ObjFile>): seq<Source> {
    if list == [] then [] else SourceOf(files, list[0]) + SourcesOf(files, list[1..])
  }

  /** These are exactly the sources whose own object files are in the list. */
  lemma {:induction false} SourcesExactly(files: seq<CmdFile>, list: seq<ObjFile>, s: Source)
    ensures s in SourcesOf(files, list) <==> Stands(files, s) && Own(s) in list
    decreases |list|
  {
    if list != [] {
      SourcesExactly(files, list[1..], s);
      SourceOnly(files, list[0], s);
      assert list == [list[0]] + list[1..];
      assert s in SourcesOf(files, list) <==> s in SourceOf(files, list[0]) || s in SourcesOf(files, list[1..]);
    }
  }

  lemma SourceOnly(files: seq<CmdFile>, o: ObjFile, s: Source)
    ensures s in SourceOf(files, o) <==> Stands(files, s) && Own(s) == o
  {
  }

  /** The modules, last one first. */
  function Backwards(sources: seq<Source>): seq<DModule> {
    if sources == [] then [] else Backwards(sources[1..]) + [sources[0].m]
  }

  lemma {:induction false} BackwardsAt(sources: seq<Source>, k: nat)
    requires k < |sources|
    ensures |Backwards(sources)| == |sources| && Backwards(sources)[|sources| - 1 - k] == sources[k].m
    decreases |sources|
  {
    if |sources| > 1 {
      BackwardsAt(sources[1..], if k > 0 then k - 1 else 0);
    }
  }

  /** In multi-object mode, if no module stops the run: the files written are those of the sources whose object files are
      left to be linked, one for each in reverse order, under the names of those object files. */
  lemma LinkedAreWritten(files: seq<CmdFile>)
    requires NoneStops(Modules(files, 0))
    ensures
      var left := LeftOver(files, false);
      Output(Modules(files, 0), true, false, BitcodeFiles(files, 0), First(left)) ==
      Separate(Backwards(SourcesOf(files, left)), BitcodeFiles(files, 0))
  {
    MultiLeftOver(files);
    LinkedHosts(files, 0);
    OutputOf(files, First(LeftOver(files, false)));
  }

  lemma OutputOf(files: seq<CmdFile>, first: Option<string>)
    requires NoneStops(Modules(files, 0))
    ensures Output(Modules(files, 0), true, false, BitcodeFiles(files, 0), first) ==
      Separate(HostModules(Modules(files, 0)), BitcodeFiles(files, 0))
  {
    RunFilesExactly(Modules(files, 0), false, BitcodeFiles(files, 0), first);
  }

  lemma {:induction false} LinkedHosts(files: seq<CmdFile>, k: nat)
    ensures HostModules(Modules(files, k)) == Backwards(SourcesOf(files, ToLink(files, k)))
    decreases |files| - k
  {
    if k < |files| {
      LinkedHosts(files, k + 1);
      HostsFirst(files, k);
      LinkedFirst(files, k);
    }
  }

  /** The source at place k, if it is compiled for the host. */
  function HostAt(files: seq<CmdFile>, k: nat): seq<Source>
    requires k < |files|
  {
    if files[k].SourceArg? && ForHost(ModuleAt(files, k)[0]) then ModuleAt(files, k) else []
  }

  lemma HostsFirst(files: seq<CmdFile>, k: nat)
    requires k < |files|
    ensures HostModules(Modules(files, k)) ==
      HostModules(Modules(files, k + 1)) + (if HostAt(files, k) == [] then [] else [HostAt(files, k)[0].m])
  {
    var rest := Modules(files, k + 1);
    if files[k].SourceArg? {
      assert (ModuleAt(files, k) + rest)[1..] == rest;
    } else {
      assert ModuleAt(files, k) + rest == rest;
    }
  }

  lemma LinkedFirst(files: seq<CmdFile>, k: nat)
    requires k < |files|
    ensures Backwards(SourcesOf(files, ToLink(files, k))) ==
      Backwards(SourcesOf(files, ToLink(files, k + 1))) + (if HostAt(files, k) == [] then [] else [HostAt(files, k)[0].m])
  {
    var rest := ToLink(files, k + 1);
    var sources := SourcesOf(files, rest);
    if files[k].BitcodeArg? || (files[k].SourceArg? && !ForHost(ModuleAt(files, k)[0])) {
      assert [] + rest == rest;
    } else {
      assert (AnyAt(files, k) + rest)[1..] == rest && (AnyAt(files, k) + rest)[0] == AnyAt(files, k)[0];
      assert SourcesOf(files, ToLink(files, k)) == HostAt(files, k) + sources;
      assert HostAt(files, k) != [] ==> (HostAt(files, k) + sources)[1..] == sources;
      assert HostAt(files, k) == [] ==> HostAt(files, k) + sources == sources;
    }
  }
}
