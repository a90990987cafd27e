/** The internal archiver's `llvm-ar rcs <archive> <path>...` (driver/archiver.cpp).

    An existing archive is merged with a list of paths: an old member is replaced, at its old
    position, by the first not yet used path with the same basename; the paths left over are appended.
    Neither the old member names nor the basenames need to be distinct. */
module Archiver {

  import opened Common

  type Bytes = string

  /** A member of an archive, and a member to be written. */
  datatype Member = Member(name: string, data: Bytes)

  /** Where a member of the new archive comes from. */
  datatype Slot = Old(member: Member) | New(path: string)

  // ---------------------------------------------------------------- names and files

  function SlotName(slot: Slot): string {
    match slot
    case Old(m) => m.name
    case New(path) => Basename(path)
  }

  /** Every path can be opened. */
  ghost predicate Readable(files: map<string, Bytes>, paths: seq<string>) {
    forall path <- paths :: path in files
  }

  /** The member a slot stands for: a new member is named by the basename of its path. */
  ghost function Load(files: map<string, Bytes>, slot: Slot): Member {
    match slot
    case Old(m) => m
    case New(path) => Member(Basename(path), if path in files then files[path] else "")
  }

  ghost function LoadAll(files: map<string, Bytes>, slots: seq<Slot>): (r: seq<Member>)
    ensures |r| == |slots|
    ensures forall i :: 0 <= i < |r| ==> r[i] == Load(files, slots[i])
  {
    if slots == [] then [] else [Load(files, slots[0])] + LoadAll(files, slots[1..])
  }

  /** The members of an archive, if there is one. */
  function Before(prior: Option<seq<Member>>): seq<Member> {
    if prior.Some? then prior.value else []
  }

  // ---------------------------------------------------------------- the archive written

  /** How many old members in front of member i have its name. */
  function Earlier(prior: seq<Member>, i: nat): nat
    requires i < |prior|
  {
    Count(MemberNames(prior[..i]), prior[i].name)
  }

  /** The archive written over `prior`, member by member: in the old part the k-th member of a name holds the content of
      the k-th path with that basename, and stays as it is if there is none; behind it the surplus paths follow in order. */
  ghost predicate Updated(files: map<string, Bytes>, prior: seq<Member>, paths: seq<string>, r: seq<Member>) {
    var surplus := Surplus(paths, multiset(MemberNames(prior)));
    && |r| == |prior| + |surplus|
    && (forall i :: 0 <= i < |prior| ==> UpdatedAt(files, prior, paths, i, r[i]))
    && (forall j :: 0 <= j < |surplus| ==>
          surplus[j] in files && r[|prior| + j] == Member(Basename(surplus[j]), files[surplus[j]]))
  }

  ghost predicate UpdatedAt(files: map<string, Bytes>, prior: seq<Member>, paths: seq<string>, i: nat, m: Member)
    requires i < |prior|
  {
    var name, k := prior[i].name, Earlier(prior, i);
    if k < Times(paths, name) then
      && Kth(paths, name, k) in files
      && m == Member(name, files[Kth(paths, name, k)])
    else m == prior[i]
  }

  lemma {:induction false} KthIsGiven(paths: seq<string>, n: string, k: nat)
    requires k < Times(paths, n)
    ensures Kth(paths, n, k) in paths && Basename(Kth(paths, n, k)) == n
  {
    var here := Basename(paths[0]) == n;
    if !here || k > 0 {
      KthIsGiven(paths[1..], n, if here then k - 1 else k);
    }
  }

  lemma {:induction false} SurplusIsGiven(paths: seq<string>, names: multiset<string>, j: nat)
    requires j < |Surplus(paths, names)|
    ensures Surplus(paths, names)[j] in paths
    decreases |paths|
  {
    var b := Basename(paths[0]);
    if b in names {
      SurplusIsGiven(paths[1..], names - multiset{b}, j);
    } else if j > 0 {
      SurplusIsGiven(paths[1..], names, j - 1);
    }
  }

  lemma WrittenAt(files: map<string, Bytes>, prior: seq<Member>, paths: seq<string>, i: nat)
    requires i < |prior| && Readable(files, paths)
    ensures |Plan(prior, paths)| > i && UpdatedAt(files, prior, paths, i, Load(files, Plan(prior, paths)[i]))
  {
    Pairing(prior, paths, i);
    if Earlier(prior, i) < Times(paths, prior[i].name) {
      KthIsGiven(paths, prior[i].name, Earlier(prior, i));
    }
  }

  lemma WrittenBehind(files: map<string, Bytes>, prior: seq<Member>, paths: seq<string>, j: nat)
    requires Readable(files, paths) && j < |Surplus(paths, multiset(MemberNames(prior)))|
    ensures
      var path := Surplus(paths, multiset(MemberNames(prior)))[j];
      && |Plan(prior, paths)| > |prior| + j && path in files
      && Load(files, Plan(prior, paths)[|prior| + j]) == Member(Basename(path), files[path])
  {
    NamesKeptThenSurplus(prior, paths);
    SurplusIsGiven(paths, multiset(MemberNames(prior)), j);
    var plan := Plan(prior, paths);
    assert |plan[|prior|..]| == |NewSlots(Surplus(paths, multiset(MemberNames(prior))))|;
    assert plan[|prior| + j] == plan[|prior|..][j];
  }

  /** The loaded plan is the archive described member by member. */
  lemma WrittenExactly(files: map<string, Bytes>, prior: seq<Member>, paths: seq<string>)
    requires Readable(files, paths)
    ensures Updated(files, prior, paths, LoadAll(files, Plan(prior, paths)))
  {
    var surplus := Surplus(paths, multiset(MemberNames(prior)));
    NamesKeptThenSurplus(prior, paths);
    assert |Plan(prior, paths)[|prior|..]| == |NewSlots(surplus)|;
    forall i | 0 <= i < |prior| ensures UpdatedAt(files, prior, paths, i, LoadAll(files, Plan(prior, paths))[i]) {
      WrittenAt(files, prior, paths, i);
    }
    forall j | 0 <= j < |surplus|
      ensures surplus[j] in files
      ensures LoadAll(files, Plan(prior, paths))[|prior| + j] == Member(Basename(surplus[j]), files[surplus[j]])
    {
      WrittenBehind(files, prior, paths, j);
    }
  }

  /** A member name is the path behind its last separator, or the whole path if it has none. */
  lemma {:induction false} BasenameExactly(folder: string, name: string)
    requires '/' !in name
    ensures Basename(name) == name && Basename(folder + "/" + name) == name
    decreases |folder|
  {
    var path := folder + "/" + name;
    assert path[|folder|] == '/' && path[|folder|] in path;
    if folder == "" {
      assert path[1..] == name;
    } else {
      assert path[1..] == folder[1..] + "/" + name;
      BasenameExactly(folder[1..], name);
    }
  }

  /** The k-th path of a name is the one with k of that name in front of it. */
  lemma {:induction false} KthExactly(paths: seq<string>, j: nat)
    requires j < |paths|
    ensures
      var n := Basename(paths[j]);
      var k := Times(paths[..j], n);
      k < Times(paths, n) && Kth(paths, n, k) == paths[j]
    decreases j
  {
    if j > 0 {
      KthExactly(paths[1..], j - 1);
      assert paths[..j][1..] == paths[1..][..j - 1];
    }
  }

  /** A name occurs as often as it does in both parts. */
  lemma {:induction false} TimesAppend(a: seq<string>, b: seq<string>, n: string)
    ensures Times(a + b, n) == Times(a, n) + Times(b, n)
  {
    if a == [] {
      assert a + b == b;
    } else {
      assert (a + b)[1..] == a[1..] + b;
      TimesAppend(a[1..], b, n);
    }
  }

  lemma {:induction false} CountAppend(a: seq<string>, b: seq<string>, n: string)
    ensures Count(a + b, n) == Count(a, n) + Count(b, n)
  {
    if a == [] {
      assert a + b == b;
    } else {
      assert (a + b)[1..] == a[1..] + b;
      CountAppend(a[1..], b, n);
    }
  }

  /** A path is surplus exactly if the paths in front of it use up all old members of its name. */
  lemma {:induction false} SurplusExactly(paths: seq<string>, path: string, names: multiset<string>)
    ensures
      var n := Basename(path);
      Surplus(paths + [path], names) ==
        Surplus(paths, names) + if Times(paths, n) < names[n] then [] else [path]
    decreases |paths|
  {
    if paths == [] {
      assert [path][1..] == [] && paths + [path] == [path];
    } else {
      assert (paths + [path])[1..] == paths[1..] + [path];
      var b := Basename(paths[0]);
      SurplusExactly(paths[1..], path, if b in names then names - multiset{b} else names);
    }
  }

  // ---------------------------------------------------------------- the merge

  /** The first path with the given basename, or |paths| if there is none. */
  function FirstMatch(paths: seq<string>, name: string): (j: nat)
    ensures j <= |paths|
    ensures j < |paths| ==> Basename(paths[j]) == name
    ensures forall k :: 0 <= k < j ==> Basename(paths[k]) != name
  {
    if paths == [] || Basename(paths[0]) == name then 0 else 1 + FirstMatch(paths[1..], name)
  }

  function Erase(paths: seq<string>, j: nat): seq<string>
    requires j < |paths|
  {
    paths[..j] + paths[j + 1..]
  }

  function NewSlots(paths: seq<string>): (r: seq<Slot>)
    ensures |r| == |paths|
    ensures forall i :: 0 <= i < |r| ==> r[i] == New(paths[i])
  {
    if paths == [] then [] else [New(paths[0])] + NewSlots(paths[1..])
  }

  /** What becomes of each member: one old member at a time, consuming the paths. */
  function Plan(prior: seq<Member>, paths: seq<string>): seq<Slot> {
    if prior == [] then NewSlots(paths)
    else
      var j := FirstMatch(paths, prior[0].name);
      if j == |paths| then [Old(prior[0])] + Plan(prior[1..], paths)
      else [New(paths[j])] + Plan(prior[1..], Erase(paths, j))
  }

  // ---------------------------------------------------------------- the archiver

  /** The archiver's globals, the readable files, and the archives on disk by name. */
  class Tool {
    var members: seq<string>
    var archives: map<string, seq<Member>>
    const files: map<string, Bytes>

    constructor (files: map<string, Bytes>, archives: map<string, seq<Member>>)
      ensures this.files == files && this.archives == archives && members == []
    {
      this.files, this.archives, this.members := files, archives, [];
    }

    /** Appends the member for a path (pos == -1) or puts it at `pos`; fails if the file cannot be read. */
    method AddPath(ret: seq<Member>, path: string, pos: int) returns (status: int, r: seq<Member>)
      requires -1 <= pos < |ret|
      ensures status == if path in files then 0 else 1
      ensures status == 0 ==>
        path in files &&
        r == (if pos == -1 then ret + [Member(Basename(path), files[path])]
              else ret[pos := Member(Basename(path), files[path])])
      ensures status != 0 ==> r == ret
    {
      if path !in files { return 1, ret; }
      var member := Member(Basename(path), files[path]);
      if pos == -1 { return 0, ret + [member]; }
      return 0, ret[pos := member];
    }

    /** The `find_if` over the paths not yet used. */
    method FindMember(name: string) returns (j: nat)
      ensures j == FirstMatch(members, name)
    {
      j := 0;
      while j < |members| && Basename(members[j]) != name
        invariant 0 <= j <= |members|
        invariant forall k :: 0 <= k < j ==> Basename(members[k]) != name
      {
        j := j + 1;
      }
      FirstMatchUnique(members, name, j);
    }

    /** The loop over the old members: replaces those with a matching path, and erases that path. */
    method ReplaceOldMembers(prior: seq<Member>) returns (status: int, ret: seq<Member>)
      modifies this`members
      ensures status == 0 ==>
        && LoadAll(files, Plan(prior, old(members))) == ret + LoadAll(files, NewSlots(members))
        && (Readable(files, old(members)) <==> Readable(files, members))
      ensures status != 0 ==> !Readable(files, old(members))
    {
      ghost var paths := members;
      ghost var whole := LoadAll(files, Plan(prior, paths));
      status, ret := 0, [];
      var i := 0;
      while i < |prior|
        invariant 0 <= i <= |prior| && status == 0
        invariant Merging(files, whole, paths, ret, prior, i, members)
      {
        var child := prior[i];
        var j := FindMember(child.name);
        MergeRound(files, whole, paths, ret, prior, i, members);
        if j == |members| {
          ret := ret + [child];
        } else {
          status, ret := AddPath(ret, members[j], -1);
          if status != 0 { return; }
          members := Erase(members, j);
        }
        i := i + 1;
      }
      assert prior[i..] == [];
    }

    /** The blanks inserted behind the old members, and the loop filling them. */
    method AppendRemaining(replaced: seq<Member>) returns (status: int, ret: seq<Member>)
      ensures status == 0 <==> Readable(files, members)
      ensures status == 0 ==> ret == replaced + LoadAll(files, NewSlots(members))
    {
      ret := replaced;
      var insertPos := |ret|;
      var n := 0;
      while n != |members|
        invariant 0 <= n <= |members|
        invariant |ret| == insertPos + n && ret[..insertPos] == replaced
      {
        ret := ret[..insertPos] + [Member("", "")] + ret[insertPos..];
        n := n + 1;
      }
      var pos, m := insertPos, 0;
      while m < |members|
        invariant 0 <= m <= |members| && pos == insertPos + m
        invariant |ret| == insertPos + |members| && ret[..insertPos] == replaced
        invariant forall k :: 0 <= k < m ==> members[k] in files && ret[insertPos + k] == Load(files, New(members[k]))
      {
        status, ret := AddPath(ret, members[m], pos);
        if status != 0 { return; }
        pos, m := pos + 1, m + 1;
      }
      status := 0;
      AllLoaded(files, ret[insertPos..], members);
      assert ret == ret[..insertPos] + ret[insertPos..];
    }

    /** Consumes `members`; the new member list is the loaded plan, and it fails exactly on an unreadable path. */
    method ComputeNewArchiveMembers(prior: Option<seq<Member>>) returns (status: int, ret: seq<Member>)
      modifies this`members
      ensures status == 0 <==> Readable(files, old(members))
      ensures status == 0 ==>
        ret == LoadAll(files, Plan(Before(prior), old(members))) && Updated(files, Before(prior), old(members), ret)
    {
      ghost var paths := members;
      ret := [];
      if prior.Some? {
        status, ret := ReplaceOldMembers(prior.value);
        if status != 0 { return; }
      }
      status, ret := AppendRemaining(ret);
      if status == 0 {
        WrittenExactly(files, Before(prior), paths);
      }
    }

    /** Writes the archive only if all new members could be computed. */
    method PerformWriteOperation(archiveName: string, prior: Option<seq<Member>>) returns (status: int)
      requires prior == if archiveName in archives then Some(archives[archiveName]) else None
      requires members != []  // the archive kind may be taken from the first new member
      modifies this
      ensures status == 0 <==> Readable(files, old(members))
      ensures status == 0 ==>
        var after := LoadAll(files, Plan(Before(prior), old(members)));
        archives == old(archives)[archiveName := after] && Updated(files, Before(prior), old(members), after)
      ensures status != 0 ==> archives == old(archives)
    {
      var newMembers;
      status, newMembers := ComputeNewArchiveMembers(prior);
      if status != 0 { return; }
      archives := archives[archiveName := newMembers];
    }

    /** `llvm-ar rcs <archive> <path>...` */
    method InternalAr(args: seq<string>) returns (status: int)
      requires |args| >= 4 && args[0] == "llvm-ar" && args[1] == "rcs"
      modifies this
      ensures status == 0 <==> Readable(files, args[3..])
      ensures status == 0 ==>
        var before := if args[2] in old(archives) then old(archives)[args[2]] else [];
        var after := LoadAll(files, Plan(before, args[3..]));
        archives == old(archives)[args[2] := after] && Updated(files, before, args[3..], after)
      ensures status != 0 ==> archives == old(archives)
    {
      members := args[3..];
      if args[2] !in archives {
        status := PerformWriteOperation(args[2], None);
      } else {
        status := PerformWriteOperation(args[2], Some(archives[args[2]]));
      }
    }
  }

  /** The search loop stops at the first match. */
  lemma FirstMatchUnique(paths: seq<string>, name: string, j: nat)
    requires j <= |paths|
    requires j < |paths| ==> Basename(paths[j]) == name
    requires forall k :: 0 <= k < j ==> Basename(paths[k]) != name
    ensures FirstMatch(paths, name) == j
  {}

  lemma AllLoaded(files: map<string, Bytes>, loaded: seq<Member>, paths: seq<string>)
    requires |loaded| == |paths| && forall k :: 0 <= k < |paths| ==> loaded[k] == Load(files, New(paths[k]))
    ensures loaded == LoadAll(files, NewSlots(paths))
  {
  }

  lemma EraseReadable(files: map<string, Bytes>, paths: seq<string>, j: nat)
    requires j < |paths|
    ensures Readable(files, paths) <==> paths[j] in files && Readable(files, Erase(paths, j))
  {
    if paths[j] in files && Readable(files, Erase(paths, j)) {
      forall k | 0 <= k < |paths| ensures paths[k] in files {
        if k < j { assert paths[k] == Erase(paths, j)[k]; }
        if k > j { assert paths[k] == Erase(paths, j)[k - 1]; }
      }
    }
  }

  /** One round of the merge: the first old member is kept or replaced by the first matching path. */
  lemma PlanStep(files: map<string, Bytes>, prior: seq<Member>, paths: seq<string>)
    requires prior != []
    ensures
      var j := FirstMatch(paths, prior[0].name);
      LoadAll(files, Plan(prior, paths)) ==
        if j == |paths| then [prior[0]] + LoadAll(files, Plan(prior[1..], paths))
        else [Load(files, New(paths[j]))] + LoadAll(files, Plan(prior[1..], Erase(paths, j)))
  {
    var plan := Plan(prior, paths);
    assert LoadAll(files, plan) == [Load(files, plan[0])] + LoadAll(files, plan[1..]);
  }

  /** The members of `whole` still to come are those of the plan for the old members from i on, and no path used so far
      was unreadable. */
  ghost predicate Merging(files: map<string, Bytes>, whole: seq<Member>, given: seq<string>, ret: seq<Member>,
                          prior: seq<Member>, i: nat, paths: seq<string>) {
    && i <= |prior| && whole == ret + LoadAll(files, Plan(prior[i..], paths))
    && (Readable(files, given) <==> Readable(files, paths))
  }

  lemma MergeRound(files: map<string, Bytes>, whole: seq<Member>, given: seq<string>, ret: seq<Member>,
                   prior: seq<Member>, i: nat, paths: seq<string>)
    requires i < |prior| && Merging(files, whole, given, ret, prior, i, paths)
    ensures
      var j := FirstMatch(paths, prior[i].name);
      && (j == |paths| ==> Merging(files, whole, given, ret + [prior[i]], prior, i + 1, paths))
      && (j < |paths| && paths[j] in files ==>
            Merging(files, whole, given, ret + [Load(files, New(paths[j]))], prior, i + 1, Erase(paths, j)))
      && (j < |paths| && paths[j] !in files ==> !Readable(files, given))
  {
    PlanStep(files, prior[i..], paths);
    assert prior[i..][1..] == prior[i + 1..];
    var j := FirstMatch(paths, prior[i].name);
    if j == |paths| {
      Regroup(ret, prior[i], LoadAll(files, Plan(prior[i + 1..], paths)));
    } else {
      EraseReadable(files, paths, j);
      Regroup(ret, Load(files, New(paths[j])), LoadAll(files, Plan(prior[i + 1..], Erase(paths, j))));
    }
  }

  // ---------------------------------------------------------------- idempotence

  /** Running `rcs` again with the same paths gives the same archive. */
  lemma {:induction false} Idempotent(files: map<string, Bytes>, prior: seq<Member>, paths: seq<string>)
    ensures
      var once := LoadAll(files, Plan(prior, paths));
      LoadAll(files, Plan(once, paths)) == once
    decreases |prior| + |paths|
  {
    if prior != [] {
      var j := FirstMatch(paths, prior[0].name);
      if j == |paths| {
        Replan(files, Old(prior[0]), Plan(prior[1..], paths), paths);
        Idempotent(files, prior[1..], paths);
      } else {
        Replan(files, New(paths[j]), Plan(prior[1..], Erase(paths, j)), paths);
        Idempotent(files, prior[1..], Erase(paths, j));
      }
    } else if paths != [] {
      assert Erase(paths, 0) == paths[1..];
      assert NewSlots(paths) == [New(paths[0])] + NewSlots(paths[1..]);
      Replan(files, New(paths[0]), NewSlots(paths[1..]), paths);
      Idempotent(files, [], paths[1..]);
    }
  }

  /** The plan for an already loaded plan treats its first member as before. */
  lemma Replan(files: map<string, Bytes>, slot: Slot, rest: seq<Slot>, paths: seq<string>)
    requires
      var j := FirstMatch(paths, SlotName(slot));
      if j == |paths| then slot.Old? else slot == New(paths[j])
    ensures
      var j := FirstMatch(paths, SlotName(slot));
      LoadAll(files, Plan(LoadAll(files, [slot] + rest), paths))
      == [Load(files, slot)] + LoadAll(files, Plan(LoadAll(files, rest), if j == |paths| then paths else Erase(paths, j)))
  {
    var all := LoadAll(files, [slot] + rest);
    assert all[1..] == LoadAll(files, rest);
  }

  // ---------------------------------------------------------------- pairing and conservation

  function Count(names: seq<string>, n: string): nat {
    if names == [] then 0 else (if names[0] == n then 1 else 0) + Count(names[1..], n)
  }

  /** How many paths have the basename n. */
  function Times(paths: seq<string>, n: string): nat {
    if paths == [] then 0 else (if Basename(paths[0]) == n then 1 else 0) + Times(paths[1..], n)
  }

  function MemberNames(members: seq<Member>): (r: seq<string>)
    ensures |r| == |members|
    ensures forall i :: 0 <= i < |r| ==> r[i] == members[i].name
  {
    if members == [] then [] else [members[0].name] + MemberNames(members[1..])
  }

  /** The k-th path (from 0) with basename n. */
  function Kth(paths: seq<string>, n: string, k: nat): string
    requires k < Times(paths, n)
  {
    if Basename(paths[0]) != n then Kth(paths[1..], n, k)
    else if k == 0 then paths[0]
    else Kth(paths[1..], n, k - 1)
  }

  /** The paths that find no old member: each path uses up one old occurrence of its basename. */
  function Surplus(paths: seq<string>, names: multiset<string>): seq<string> {
    if paths == [] then []
    else if Basename(paths[0]) in names then Surplus(paths[1..], names - multiset{Basename(paths[0])})
    else [paths[0]] + Surplus(paths[1..], names)
  }

  /** The paths used by a plan, in plan order. */
  function PathsUsed(slots: seq<Slot>): multiset<string> {
    if slots == [] then multiset{}
    else (if slots[0].New? then multiset{slots[0].path} else multiset{}) + PathsUsed(slots[1..])
  }

  lemma {:induction false} FirstMatchIsKth(paths: seq<string>, n: string)
    ensures FirstMatch(paths, n) == |paths| <==> Times(paths, n) == 0
    ensures FirstMatch(paths, n) < |paths| ==> paths[FirstMatch(paths, n)] == Kth(paths, n, 0)
  {
    if paths != [] && Basename(paths[0]) != n {
      FirstMatchIsKth(paths[1..], n);
    }
  }

  /** The paths left when an old member named m has taken its path, if there is one. */
  function Left(paths: seq<string>, m: string): seq<string> {
    if FirstMatch(paths, m) == |paths| then paths else Erase(paths, FirstMatch(paths, m))
  }

  lemma LeftStep(paths: seq<string>, m: string)
    requires paths != []
    ensures Left(paths, m) == if Basename(paths[0]) == m then paths[1..] else [paths[0]] + Left(paths[1..], m)
  {
    if Basename(paths[0]) != m && FirstMatch(paths[1..], m) < |paths[1..]| {
      EraseBehind(paths, FirstMatch(paths[1..], m));
    }
  }

  lemma EraseBehind(paths: seq<string>, j: nat)
    requires j + 1 < |paths|
    ensures Erase(paths, j + 1) == [paths[0]] + Erase(paths[1..], j)
    ensures Erase(paths, j + 1)[1..] == Erase(paths[1..], j)
  {
  }

  /** The count of m goes down by one, if there is a path, and the others stay. */
  lemma {:induction false} TimesLeft(paths: seq<string>, m: string, n: string)
    ensures Times(Left(paths, m), n) == if m == n && Times(paths, n) > 0 then Times(paths, n) - 1 else Times(paths, n)
  {
    if paths != [] {
      LeftStep(paths, m);
      if Basename(paths[0]) != m {
        TimesLeft(paths[1..], m, n);
        TimesFirst(paths[0], Left(paths[1..], m), n);
      }
    }
  }

  lemma TimesFirst(path: string, rest: seq<string>, n: string)
    ensures Times([path] + rest, n) == (if Basename(path) == n then 1 else 0) + Times(rest, n)
  {
    assert ([path] + rest)[1..] == rest;
  }

  lemma KthFirst(path: string, rest: seq<string>, n: string, k: nat)
    requires k < Times([path] + rest, n)
    ensures Basename(path) == n && k == 0 ==> Kth([path] + rest, n, k) == path
    ensures
      var k' := if Basename(path) == n then k - 1 else k;
      k' >= 0 ==> k' < Times(rest, n) && Kth([path] + rest, n, k) == Kth(rest, n, k')
  {
    assert ([path] + rest)[1..] == rest;
  }

  /** The paths left are numbered on. */
  lemma {:induction false} KthLeft(paths: seq<string>, m: string, n: string, k: nat)
    requires k < Times(Left(paths, m), n)
    ensures
      var k' := if m == n then k + 1 else k;
      k' < Times(paths, n) && Kth(Left(paths, m), n, k) == Kth(paths, n, k')
  {
    LeftStep(paths, m);
    var b, rest := Basename(paths[0]), paths[1..];
    if b != m {
      TimesFirst(paths[0], Left(rest, m), n);
      if b != n {
        KthLeft(rest, m, n, k);
        KthFirst(paths[0], Left(rest, m), n, k);
      } else if k > 0 {
        KthLeft(rest, m, n, k - 1);
        KthFirst(paths[0], Left(rest, m), n, k);
      }
    }
  }

  /** What becomes of the k-th old member with name n: the k-th path of that name replaces it. */
  function Fate(member: Member, paths: seq<string>, k: nat): Slot {
    if k < Times(paths, member.name) then New(Kth(paths, member.name, k)) else Old(member)
  }

  /** The k-th old occurrence of a name is replaced by the k-th new path of that name, while one exists. */
  lemma {:induction false} Pairing(prior: seq<Member>, paths: seq<string>, i: nat)
    requires i < |prior|
    ensures |Plan(prior, paths)| >= |prior|
    ensures Plan(prior, paths)[i] == Fate(prior[i], paths, Count(MemberNames(prior[..i]), prior[i].name))
    decreases prior
  {
    PlanLength(prior, paths);
    if i == 0 {
      FirstMatchIsKth(paths, prior[0].name);
    } else {
      Pairing(prior[1..], Left(paths, prior[0].name), i - 1);
      SlotBehind(prior, paths, i);
      CountFirst(prior, i, prior[i].name);
      FateShifted(prior[i], paths, prior[0].name, Count(MemberNames(prior[1..][..i - 1]), prior[i].name));
    }
  }

  /** The slot of a later old member is that of the plan for the rest. */
  lemma SlotBehind(prior: seq<Member>, paths: seq<string>, i: nat)
    requires 0 < i < |prior|
    ensures
      var rest := Plan(prior[1..], Left(paths, prior[0].name));
      i - 1 < |rest| && i < |Plan(prior, paths)| && Plan(prior, paths)[i] == rest[i - 1]
  {
    PlanLength(prior[1..], Left(paths, prior[0].name));
    FirstName(prior, paths);
  }

  lemma CountFirst(prior: seq<Member>, i: nat, n: string)
    requires 0 < i <= |prior|
    ensures Count(MemberNames(prior[..i]), n) ==
      (if prior[0].name == n then 1 else 0) + Count(MemberNames(prior[1..][..i - 1]), n)
  {
    assert prior[..i][1..] == prior[1..][..i - 1];
  }

  /** How the paths left by a member named m are numbered. */
  lemma FateShifted(member: Member, paths: seq<string>, m: string, k: nat)
    ensures Fate(member, Left(paths, m), k) == Fate(member, paths, if m == member.name then k + 1 else k)
  {
    TimesLeft(paths, m, member.name);
    if k < Times(Left(paths, m), member.name) {
      KthLeft(paths, m, member.name, k);
    }
  }

  lemma {:induction false} PlanLength(prior: seq<Member>, paths: seq<string>)
    ensures |Plan(prior, paths)| >= |prior|
    decreases prior
  {
    if prior != [] {
      PlanLength(prior[1..], Left(paths, prior[0].name));
    }
  }

  /** The old names stay in place, and behind them come exactly the surplus paths in their given order. */
  lemma {:induction false} NamesKeptThenSurplus(prior: seq<Member>, paths: seq<string>)
    ensures |Plan(prior, paths)| >= |prior|
    ensures forall i :: 0 <= i < |prior| ==> SlotName(Plan(prior, paths)[i]) == prior[i].name
    ensures Plan(prior, paths)[|prior|..] == NewSlots(Surplus(paths, multiset(MemberNames(prior))))
    decreases prior
  {
    if prior == [] {
      SurplusOfNone(paths);
    } else {
      var n := prior[0].name;
      var left := Left(paths, n);
      NamesKeptThenSurplus(prior[1..], left);
      SurplusStep(paths, n, multiset(MemberNames(prior[1..])));
      assert MemberNames(prior) == [n] + MemberNames(prior[1..]);
      FirstName(prior, paths);
      Behind(Plan(prior, paths)[0], Plan(prior[1..], left), |prior| - 1);
    }
  }

  lemma FirstName(prior: seq<Member>, paths: seq<string>)
    requires prior != []
    ensures
      var plan := Plan(prior, paths);
      plan != [] && SlotName(plan[0]) == prior[0].name && plan == [plan[0]] + Plan(prior[1..], Left(paths, prior[0].name))
  {
  }

  lemma Behind<T>(x: T, rest: seq<T>, n: nat)
    requires n <= |rest|
    ensures ([x] + rest)[1 + n..] == rest[n..]
  {
  }

  /** Running `rcs` again appends nothing. */
  lemma NothingAppendedAgain(files: map<string, Bytes>, prior: seq<Member>, paths: seq<string>)
    ensures Surplus(paths, multiset(MemberNames(LoadAll(files, Plan(prior, paths))))) == []
  {
    var once := LoadAll(files, Plan(prior, paths));
    Idempotent(files, prior, paths);
    NamesKeptThenSurplus(once, paths);
    assert |Plan(once, paths)| == |once|;
    assert |NewSlots(Surplus(paths, multiset(MemberNames(once))))| == 0;
  }

  lemma {:induction false} SurplusOfNone(paths: seq<string>)
    ensures Surplus(paths, multiset{}) == paths
  {
    if paths != [] { SurplusOfNone(paths[1..]); }
  }

  lemma SurplusFirst(path: string, rest: seq<string>, names: multiset<string>)
    ensures Surplus([path] + rest, names) ==
      if Basename(path) in names then Surplus(rest, names - multiset{Basename(path)}) else [path] + Surplus(rest, names)
  {
    assert ([path] + rest)[1..] == rest;
  }

  lemma {:induction false} SurplusStep(paths: seq<string>, n: string, names: multiset<string>)
    ensures Surplus(paths, multiset{n} + names) == Surplus(Left(paths, n), names)
  {
    if paths != [] {
      var b := Basename(paths[0]);
      LeftStep(paths, n);
      if b == n {
        assert multiset{n} + names - multiset{b} == names;
      } else {
        SurplusFirst(paths[0], Left(paths[1..], n), names);
        if b in names {
          assert multiset{n} + names - multiset{b} == multiset{n} + (names - multiset{b});
          SurplusStep(paths[1..], n, names - multiset{b});
        } else {
          SurplusStep(paths[1..], n, names);
        }
      }
    }
  }

  /** In the merged archive every name occurs max(old count, new count) times. */
  lemma {:induction false} MergedCount(files: map<string, Bytes>, prior: seq<Member>, paths: seq<string>, n: string)
    ensures
      var before, given := Count(MemberNames(prior), n), Times(paths, n);
      Count(MemberNames(LoadAll(files, Plan(prior, paths))), n) == if before < given then given else before
    decreases prior
  {
    if prior == [] {
      CountOfNew(files, paths, n);
    } else {
      var m := prior[0].name;
      MergedFirst(files, prior, paths, n);
      TimesLeft(paths, m, n);
      MergedCount(files, prior[1..], Left(paths, m), n);
    }
  }

  lemma MergedFirst(files: map<string, Bytes>, prior: seq<Member>, paths: seq<string>, n: string)
    requires prior != []
    ensures Count(MemberNames(LoadAll(files, Plan(prior, paths))), n) ==
      (if prior[0].name == n then 1 else 0) +
      Count(MemberNames(LoadAll(files, Plan(prior[1..], Left(paths, prior[0].name)))), n)
  {
    var merged := LoadAll(files, Plan(prior, paths));
    PlanStep(files, prior, paths);
    assert merged[1..] == LoadAll(files, Plan(prior[1..], Left(paths, prior[0].name)));
    assert MemberNames(merged) == [prior[0].name] + MemberNames(merged[1..]);
  }

  lemma {:induction false} CountOfNew(files: map<string, Bytes>, paths: seq<string>, n: string)
    ensures Count(MemberNames(LoadAll(files, NewSlots(paths))), n) == Times(paths, n)
  {
    if paths != [] {
      CountOfNew(files, paths[1..], n);
      var all := LoadAll(files, NewSlots(paths));
      assert all[1..] == LoadAll(files, NewSlots(paths[1..]));
      assert MemberNames(all) == [Basename(paths[0])] + MemberNames(all[1..]);
    }
  }

  /** Every given path contributes exactly one member, also when paths repeat. */
  lemma {:induction false} Conservation(prior: seq<Member>, paths: seq<string>)
    ensures PathsUsed(Plan(prior, paths)) == multiset(paths)
    decreases prior
  {
    if prior == [] {
      UsedOfNew(paths);
    } else {
      var j := FirstMatch(paths, prior[0].name);
      if j == |paths| {
        Conservation(prior[1..], paths);
        assert Plan(prior, paths)[1..] == Plan(prior[1..], paths);
      } else {
        Conservation(prior[1..], Erase(paths, j));
        assert Plan(prior, paths)[1..] == Plan(prior[1..], Erase(paths, j));
        EraseMultiset(paths, j);
      }
    }
  }

  lemma EraseMultiset(paths: seq<string>, j: nat)
    requires j < |paths|
    ensures multiset(paths) == multiset{paths[j]} + multiset(Erase(paths, j))
  {
    assert paths == paths[..j] + [paths[j]] + paths[j + 1..];
  }

  lemma {:induction false} UsedOfNew(paths: seq<string>)
    ensures PathsUsed(NewSlots(paths)) == multiset(paths)
  {
    if paths != [] {
      assert NewSlots(paths)[1..] == NewSlots(paths[1..]);
      UsedOfNew(paths[1..]);
      assert paths == [paths[0]] + paths[1..];
    }
  }
}
