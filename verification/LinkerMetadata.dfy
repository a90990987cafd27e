/** What the code generator puts into an LLVM module and its metadata (driver/codegenerator.cpp, the bitcode insertion
    of driver/linker.cpp). */
module LinkerMetadata {

  import opened Common

  /** A metadata node. */
  type Node = string

  /** The named metadata lists that matter here. */
  datatype Name = LinkerOptions | DependentLibraries | Ident

  type Metadata = map<Name, seq<Node>>

  /** What an LLVM module is made of, in order. */
  datatype Unit = Compiled(srcfile: string) | Bitcode(file: string)

  /** The module as written. */
  datatype Image = Image(units: seq<Unit>, metadata: Metadata)

  datatype BitcodeFile = BitcodeFile(file: string, metadata: Metadata)

  /** A D module, with what its code generation adds to the linker options and dependent libraries, and whether it
      reports errors. */
  datatype DModule = DModule(srcfile: string, objfile: string, linkerOptions: seq<Node>, dependentLibs: seq<Node>, fails: bool)

  const VERSION: Node := "ldc version"

  function Operands(metadata: Metadata, name: Name): seq<Node> {
    if name in metadata then metadata[name] else []
  }

  function Front(metadata: Metadata, name: Name, operands: seq<Node>): Metadata {
    if operands == [] then metadata else metadata[name := operands + Operands(metadata, name)]
  }

  function Back(metadata: Metadata, name: Name, operand: Node): Metadata {
    metadata[name := Operands(metadata, name) + [operand]]
  }

  function Completed(metadata: Metadata, options: seq<Node>, libs: seq<Node>): Metadata {
    Back(Front(Front(metadata, LinkerOptions, options), DependentLibraries, libs), Ident, VERSION)
  }

  /** Linking in another module appends its operands. */
  function Linked(metadata: Metadata, more: Metadata): Metadata {
    map name | name in metadata.Keys + more.Keys :: Operands(metadata, name) + Operands(more, name)
  }

  // ---------------------------------------------------------------- whole lists

  function Units(ms: seq<DModule>): seq<Unit> {
    if ms == [] then [] else Units(ms[..|ms| - 1]) + [Compiled(ms[|ms| - 1].srcfile)]
  }

  function Options(ms: seq<DModule>): seq<Node> {
    if ms == [] then [] else Options(ms[..|ms| - 1]) + ms[|ms| - 1].linkerOptions
  }

  function Libs(ms: seq<DModule>): seq<Node> {
    if ms == [] then [] else Libs(ms[..|ms| - 1]) + ms[|ms| - 1].dependentLibs
  }

  function BitcodeUnits(files: seq<BitcodeFile>): seq<Unit> {
    if files == [] then [] else [Bitcode(files[0].file)] + BitcodeUnits(files[1..])
  }

  function BitcodeOperands(files: seq<BitcodeFile>, name: Name): seq<Node> {
    if files == [] then [] else Operands(files[0].metadata, name) + BitcodeOperands(files[1..], name)
  }

  function LinkedAll(metadata: Metadata, files: seq<BitcodeFile>): Metadata
    decreases |files|
  {
    if files == [] then metadata else LinkedAll(Linked(metadata, files[0].metadata), files[1..])
  }

  /** What is written for modules compiled into one IRState, with bitcode files inserted. */
  function Finished(ms: seq<DModule>, files: seq<BitcodeFile>): Image {
    Image(Units(ms) + BitcodeUnits(files),
          Completed(LinkedAll(map[], files), Options(ms), Libs(ms)))
  }

  lemma {:induction false} LinkedOperands(metadata: Metadata, files: seq<BitcodeFile>, name: Name)
    ensures Operands(LinkedAll(metadata, files), name) == Operands(metadata, name) + BitcodeOperands(files, name)
    decreases |files|
  {
    if files != [] {
      var next := Linked(metadata, files[0].metadata);
      LinkedOperands(next, files[1..], name);
      LinkedOne(metadata, files[0].metadata, name);
      Assoc(Operands(metadata, name), Operands(files[0].metadata, name), BitcodeOperands(files[1..], name));
    }
  }

  lemma LinkedOne(metadata: Metadata, more: Metadata, name: Name)
    ensures Operands(Linked(metadata, more), name) == Operands(metadata, name) + Operands(more, name)
  {
  }

  lemma FrontOperands(metadata: Metadata, name: Name, operands: seq<Node>, n: Name)
    ensures Operands(Front(metadata, name, operands), n) ==
      if n == name then operands + Operands(metadata, n) else Operands(metadata, n)
  {
  }

  lemma BackOperands(metadata: Metadata, name: Name, operand: Node, n: Name)
    ensures Operands(Back(metadata, name, operand), n) ==
      if n == name then Operands(metadata, n) + [operand] else Operands(metadata, n)
  {
  }

  lemma CompletedOperands(metadata: Metadata, options: seq<Node>, libs: seq<Node>, n: Name)
    ensures Operands(Completed(metadata, options, libs), n) ==
      match n
      case LinkerOptions => options + Operands(metadata, n)
      case DependentLibraries => libs + Operands(metadata, n)
      case Ident => Operands(metadata, n) + [VERSION]
  {
    var first := Front(metadata, LinkerOptions, options);
    FrontOperands(metadata, LinkerOptions, options, n);
    FrontOperands(first, DependentLibraries, libs, n);
    BackOperands(Front(first, DependentLibraries, libs), Ident, VERSION, n);
  }

  /** In every written module the compiled options come first, then those of the bitcode files, each in order, with
      nothing lost or repeated; likewise the dependent libraries; the compiler's identification comes last. */
  lemma OperandsExactly(ms: seq<DModule>, files: seq<BitcodeFile>)
    ensures
      var written := Finished(ms, files).metadata;
      Operands(written, LinkerOptions) == Options(ms) + BitcodeOperands(files, LinkerOptions) &&
      Operands(written, DependentLibraries) == Libs(ms) + BitcodeOperands(files, DependentLibraries) &&
      Operands(written, Ident) == BitcodeOperands(files, Ident) + [VERSION]
  {
    OneOperandList(ms, files, LinkerOptions);
    OneOperandList(ms, files, DependentLibraries);
    OneOperandList(ms, files, Ident);
  }

  lemma OneOperandList(ms: seq<DModule>, files: seq<BitcodeFile>, n: Name)
    ensures Operands(Finished(ms, files).metadata, n) ==
      match n
      case LinkerOptions => Options(ms) + BitcodeOperands(files, n)
      case DependentLibraries => Libs(ms) + BitcodeOperands(files, n)
      case Ident => BitcodeOperands(files, n) + [VERSION]
  {
    CompletedOperands(LinkedAll(map[], files), Options(ms), Libs(ms), n);
    LinkedOperands(map[], files, n);
    assert [] + BitcodeOperands(files, n) == BitcodeOperands(files, n);
  }

  // ---------------------------------------------------------------- the state of an LLVM module under construction

  class IRState {
    var units: seq<Unit>
    var metadata: Metadata
    var linkerOptions: seq<Node>
    var linkerDependentLibs: seq<Node>

    constructor ()
      ensures units == [] && metadata == map[] && linkerOptions == [] && linkerDependentLibs == []
    {
      units, metadata, linkerOptions, linkerDependentLibs := [], map[], [], [];
    }

    /** It holds the code of these modules, and nothing else yet. */
    ghost predicate Holds(ms: seq<DModule>)
      reads this
    {
      units == Units(ms) && metadata == map[] && linkerOptions == Options(ms) && linkerDependentLibs == Libs(ms)
    }

    method CodegenModule(m: DModule, ghost ms: seq<DModule>)
      requires Holds(ms)
      modifies this
      ensures Holds(ms + [m])
    {
      units := units + [Compiled(m.srcfile)];
      linkerOptions := linkerOptions + m.linkerOptions;
      linkerDependentLibs := linkerDependentLibs + m.dependentLibs;
      assert (ms + [m])[..|ms|] == ms;
    }

    method AddLinkerMetadata(name: Name, newOperands: seq<Node>)
      modifies this`metadata
      ensures metadata == Front(old(metadata), name, newOperands)
    {
      if newOperands == [] {
        return;
      }
      var node := if name in metadata then metadata[name] else [];
      var oldMDNodes := [];
      for i := 0 to |node|
        invariant oldMDNodes == node[..i]
      {
        oldMDNodes := oldMDNodes + [node[i]];
      }
      assert oldMDNodes == Operands(metadata, name);
      node := [];
      for i := 0 to |newOperands|
        invariant node == newOperands[..i]
      {
        node := node + [newOperands[i]];
      }
      for i := 0 to |oldMDNodes|
        invariant node == newOperands + oldMDNodes[..i]
      {
        node := node + [oldMDNodes[i]];
      }
      assert node == newOperands + oldMDNodes;
      metadata := metadata[name := node];
    }

    method InsertBitcodeFiles(files: seq<BitcodeFile>)
      modifies this`units, this`metadata
      ensures units == old(units) + BitcodeUnits(files)
      ensures metadata == LinkedAll(old(metadata), files)
    {
      for i := 0 to |files|
        invariant old(units) + BitcodeUnits(files) == units + BitcodeUnits(files[i..])
        invariant LinkedAll(old(metadata), files) == LinkedAll(metadata, files[i..])
      {
        assert files[i..][1..] == files[i + 1..];
        units := units + [Bitcode(files[i].file)];
        metadata := Linked(metadata, files[i].metadata);
      }
    }

    /** Completes the module: linker metadata and identification. */
    method Finish(ghost ms: seq<DModule>, ghost files: seq<BitcodeFile>) returns (image: Image)
      requires units == Units(ms) + BitcodeUnits(files) && metadata == LinkedAll(map[], files)
      requires linkerOptions == Options(ms) && linkerDependentLibs == Libs(ms)
      modifies this`metadata
      ensures image == Finished(ms, files)
    {
      AddLinkerMetadata(LinkerOptions, linkerOptions);
      AddLinkerMetadata(DependentLibraries, linkerDependentLibs);
      metadata := metadata[Ident := (if Ident in metadata then metadata[Ident] else []) + [VERSION]];
      image := Image(units, metadata);
    }
  }
}
