/** The life cycle of the code generator (`CodeGenerator` in driver/codegenerator.cpp). */
module CodeGenerator {

  import opened Common
  import opened LinkerMetadata

  /** An object file; the name of a single object file is None if there is no first object file to name it after. */
  datatype Written = Written(filename: Option<string>, image: Image)

  class Disk {
    var written: seq<Written>

    constructor ()
      ensures written == []
    {
      written := [];
    }

    method WriteModule(filename: Option<string>, image: Image)
      modifies this
      ensures written == old(written) + [Written(filename, image)]
    {
      written := written + [Written(filename, image)];
    }
  }

  // ---------------------------------------------------------------- what a run writes

  /** The file of one module in multi-object mode; only the first gets the bitcode files. */
  function FileOf(m: DModule, isFirst: bool, files: seq<BitcodeFile>): Written {
    Written(Some(m.objfile), Finished([m], if isFirst then files else []))
  }

  function Separate(ms: seq<DModule>, files: seq<BitcodeFile>): seq<Written> {
    if ms == [] then []
    else Separate(ms[..|ms| - 1], files) + [FileOf(ms[|ms| - 1], |ms| == 1, files)]
  }

  function Files(singleObj: bool, ms: seq<DModule>, files: seq<BitcodeFile>, first: Option<string>): seq<Written> {
    if !singleObj then Separate(ms, files)
    else if ms == [] then []
    else [Written(first, Finished(ms, files))]
  }

  /** What emitting one more module writes at once. */
  function Now(singleObj: bool, before: seq<DModule>, m: DModule, files: seq<BitcodeFile>): seq<Written> {
    if singleObj then [] else [FileOf(m, before == [], files)]
  }

  /** What has been written before the destructor runs. */
  function BeforeDestroy(singleObj: bool, ms: seq<DModule>, files: seq<BitcodeFile>): seq<Written> {
    if singleObj then [] else Separate(ms, files)
  }

  /** What the destructor writes. */
  function AtDestroy(singleObj: bool, ms: seq<DModule>, files: seq<BitcodeFile>, first: Option<string>): seq<Written> {
    if singleObj then Files(true, ms, files, first) else []
  }

  // ---------------------------------------------------------------- the code generator

  class CodeGenerator {
    const singleObj: bool
    const bitcodeFiles: seq<BitcodeFile>
    const disk: Disk
    var moduleCount: nat
    var ir: IRState?
    /** The modules emitted so far. */
    ghost var emitted: seq<DModule>

    ghost function Owned(): set<object>
      reads this
    {
      if ir == null then {} else {ir}
    }

    /** Between two calls there is an IRState exactly in single-object mode after the first module, and it holds the
        code of all modules so far. */
    ghost predicate Valid()
      reads this, Owned()
    {
      moduleCount == |emitted| &&
      (ir != null <==> singleObj && emitted != []) &&
      (ir != null ==> ir.Holds(emitted))
    }

    /** One more module has been counted, and there is an IRState for its code. */
    ghost predicate Prepared()
      reads this, Owned()
    {
      moduleCount == |emitted| + 1 && ir != null && ir.Holds(if singleObj then emitted else [])
    }

    constructor (singleObj: bool, bitcodeFiles: seq<BitcodeFile>, disk: Disk)
      ensures Valid() && emitted == [] && Owned() == {}
      ensures this.singleObj == singleObj && this.bitcodeFiles == bitcodeFiles && this.disk == disk
    {
      this.singleObj, this.bitcodeFiles, this.disk := singleObj, bitcodeFiles, disk;
      moduleCount, ir, emitted := 0, null, [];
    }

    method PrepareLLModule(m: DModule)
      requires Valid()
      modifies this`moduleCount, this`ir
      ensures Prepared() && (ir == old(ir) || fresh(ir))
    {
      moduleCount := moduleCount + 1;
      if singleObj && ir != null {
        return;
      }
      assert ir == null;
      ir := new IRState();
    }

    method FinishLLModule(m: DModule)
      requires ir != null && moduleCount == |emitted| + 1
      requires !singleObj ==> ir.Holds([m])
      modifies this`ir, ir, disk
      ensures singleObj ==> ir == old(ir) && unchanged(ir)
      ensures !singleObj ==> ir == null
      ensures disk.written == old(disk.written) + Now(singleObj, emitted, m, bitcodeFiles)
    {
      if singleObj {
        return;
      }
      if moduleCount == 1 {
        ir.InsertBitcodeFiles(bitcodeFiles);
      } else {
        assert BitcodeUnits([]) == [] && LinkedAll(map[], []) == map[];
      }
      WriteAndFreeLLModule(Some(m.objfile), [m], if moduleCount == 1 then bitcodeFiles else []);
    }

    method WriteAndFreeLLModule(filename: Option<string>, ghost ms: seq<DModule>, ghost files: seq<BitcodeFile>)
      requires ir != null
      requires ir.units == Units(ms) + BitcodeUnits(files) && ir.metadata == LinkedAll(map[], files)
      requires ir.linkerOptions == Options(ms) && ir.linkerDependentLibs == Libs(ms)
      modifies this`ir, ir, disk
      ensures ir == null
      ensures disk.written == old(disk.written) + [Written(filename, Finished(ms, files))]
    {
      var image := ir.Finish(ms, files);
      disk.WriteModule(filename, image);
      ir := null;
    }

    /** Emits one module. With errors pending, or if its code generation reports errors, the compiler exits; then
        nothing has been written for it. */
    method Emit(m: DModule, errors: nat) returns (fatal: bool)
      requires Valid()
      modifies this`moduleCount, this`ir, this`emitted, Owned(), disk
      ensures fresh(Owned() - old(Owned()))
      ensures fatal <==> errors > 0 || m.fails
      ensures fatal ==> disk.written == old(disk.written)
      ensures !fatal ==> Valid() && emitted == old(emitted) + [m] &&
                         disk.written == old(disk.written) + Now(singleObj, old(emitted), m, bitcodeFiles)
    {
      if errors > 0 {
        return true;
      }
      PrepareLLModule(m);
      if m.fails {
        return true;
      }
      CompleteLLModule(m);
      return false;
    }

    /** The code of the module goes into the IRState, which is written and freed in multi-object mode. */
    method CompleteLLModule(m: DModule)
      requires Prepared()
      modifies this`ir, this`emitted, Owned(), disk
      ensures Valid() && Owned() <= old(Owned())
      ensures emitted == old(emitted) + [m]
      ensures disk.written == old(disk.written) + Now(singleObj, old(emitted), m, bitcodeFiles)
    {
      ghost var before := if singleObj then emitted else [];
      ir.CodegenModule(m, before);
      assert [] + [m] == [m];
      FinishLLModule(m);
      emitted := emitted + [m];
    }

    /** The destructor; `first` is the name of the first object file, if there is one. */
    method Destroy(first: Option<string>)
      requires Valid()
      modifies this`ir, Owned(), disk
      ensures ir == null
      ensures disk.written == old(disk.written) + AtDestroy(singleObj, emitted, bitcodeFiles, first)
    {
      if singleObj && moduleCount > 0 {
        ir.InsertBitcodeFiles(bitcodeFiles);
        WriteAndFreeLLModule(first, emitted, bitcodeFiles);
      }
    }
  }

  lemma WrittenByOne(before: seq<Written>, singleObj: bool, ms: seq<DModule>, m: DModule, files: seq<BitcodeFile>)
    ensures before + BeforeDestroy(singleObj, ms + [m], files) ==
      before + BeforeDestroy(singleObj, ms, files) + Now(singleObj, ms, m, files)
  {
    assert (ms + [m])[..|ms|] == ms;
    Assoc(before, BeforeDestroy(singleObj, ms, files), Now(singleObj, ms, m, files));
  }

  // ---------------------------------------------------------------- properties of whole runs

  /** In multi-object mode file i is that of module i alone, and the bitcode files are in the first one only. */
  lemma {:induction false} SeparateAt(ms: seq<DModule>, files: seq<BitcodeFile>, i: nat)
    requires i < |ms|
    ensures |Separate(ms, files)| == |ms|
    ensures Separate(ms, files)[i] == FileOf(ms[i], i == 0, files)
    ensures Separate(ms, files)[i].filename == Some(ms[i].objfile)
    ensures Separate(ms, files)[i].image == Finished([ms[i]], if i == 0 then files else [])
    decreases |ms|
  {
    var front := ms[..|ms| - 1];
    if front == [] {
      assert Separate(front, files) == [];
    } else if i == |front| {
      SeparateAt(front, files, 0);
    } else {
      SeparateAt(front, files, i);
    }
  }

  function AllUnits(out: seq<Written>): seq<Unit> {
    if out == [] then [] else AllUnits(out[..|out| - 1]) + out[|out| - 1].image.units
  }

  function AllOperands(out: seq<Written>, name: Name): seq<Node> {
    if out == [] then [] else AllOperands(out[..|out| - 1], name) + Operands(out[|out| - 1].image.metadata, name)
  }

  /** Both modes write every module's code exactly once, and the bitcode files exactly once if there is a module at
      all and never otherwise. */
  lemma UnitsConserved(singleObj: bool, ms: seq<DModule>, files: seq<BitcodeFile>, first: Option<string>)
    ensures multiset(AllUnits(Files(singleObj, ms, files, first))) ==
      multiset(Units(ms)) + multiset(if ms == [] then [] else BitcodeUnits(files))
  {
    if !singleObj {
      SeparateUnits(ms, files);
    } else if ms != [] {
      var only := Written(first, Finished(ms, files));
      assert [only][..0] == [];
      assert AllUnits([only]) == Units(ms) + BitcodeUnits(files);
    }
  }

  lemma {:induction false} SeparateUnits(ms: seq<DModule>, files: seq<BitcodeFile>)
    ensures multiset(AllUnits(Separate(ms, files))) ==
      multiset(Units(ms)) + multiset(if ms == [] then [] else BitcodeUnits(files))
    decreases |ms|
  {
    if ms != [] {
      var front, last := ms[..|ms| - 1], ms[|ms| - 1];
      SeparateUnits(front, files);
      var out := Separate(front, files);
      var w := FileOf(last, |ms| == 1, files);
      assert (out + [w])[..|out|] == out;
      assert AllUnits(out + [w]) == AllUnits(out) + w.image.units;
      assert [last][..0] == [];
      assert Units([last]) == [Compiled(last.srcfile)];
    }
  }

  /** Likewise for the linker options over all files. */
  lemma OptionsConserved(singleObj: bool, ms: seq<DModule>, files: seq<BitcodeFile>, first: Option<string>)
    ensures multiset(AllOperands(Files(singleObj, ms, files, first), LinkerOptions)) ==
      multiset(Options(ms)) + multiset(if ms == [] then [] else BitcodeOperands(files, LinkerOptions))
  {
    if !singleObj {
      SeparateOptions(ms, files);
    } else if ms != [] {
      var only := Written(first, Finished(ms, files));
      assert [only][..0] == [];
      OperandsExactly(ms, files);
      assert AllOperands([only], LinkerOptions) == Options(ms) + BitcodeOperands(files, LinkerOptions);
    }
  }

  lemma {:induction false} SeparateOptions(ms: seq<DModule>, files: seq<BitcodeFile>)
    ensures multiset(AllOperands(Separate(ms, files), LinkerOptions)) ==
      multiset(Options(ms)) + multiset(if ms == [] then [] else BitcodeOperands(files, LinkerOptions))
    decreases |ms|
  {
    if ms != [] {
      var front, last := ms[..|ms| - 1], ms[|ms| - 1];
      SeparateOptions(front, files);
      var out := Separate(front, files);
      var bitcode := if |ms| == 1 then files else [];
      var w := FileOf(last, |ms| == 1, files);
      assert (out + [w])[..|out|] == out;
      OperandsExactly([last], bitcode);
      assert [last][..0] == [];
      assert Options([last]) == last.linkerOptions;
    }
  }
}
