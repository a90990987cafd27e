# Verified models of LDC's driver

This project models the parts of LDC's compiler driver that move options, object files and archives around, and
proves what they guarantee. Code that changes state is modelled by classes and methods with loops; each of them is
proved against a specification function, and the lemmas are about those functions. Every `.dfy` file holds one module:

- **Cache** (`driver/cache.cpp`): `CacheProtocol` is a state machine of any number of compiler processes, the pruner and
  crashes, over a file system of names, files and contents. `CacheRuns` proves safety and transparency over whole runs and
  says exactly when they fail, and `CacheRaces` what the removal of an output leads to. `CacheBuilds` proves that ordinary
  builds need none of the guards on outputs. `CacheLeads` builds runs, and `CacheWitnesses` has those that show the failures.
  `CacheNames` proves that the path names keep the kinds of files apart. `CacheKey` is the filter of command-line arguments
  for the key.
- **Argument pipeline**: `EnvTokenizer` (the in-place tokenizer for DFLAGS) and `EnvWords` (what any text of words, blanks
  and quoted parts is split into), `Ldmd` (translation of options), `LdmdTable` (the translation as a table of spelled-out
  options) and `LdmdLists` (its order, its end, and repeated `-fPIC`), `Levels` and `LevelTranslation` (numeric debug and version levels), `CommandLine`
  and `RunSuffix` (the arguments behind `-run` through both stages), `CheckFlags`, `FlagValues`, `CheckTranslation` and
  `DmdChecks` (LDC's flag parsers, their names and values, ldmd's translation of the check options, DMD's own parser for them,
  and when the two agree), `ResponseFile`, `LinkerSwitches`; `CStrings` has the character reads of C strings.
- **Archiver** (`driver/archiver.cpp`): `Archiver`.
- **Code generator** (`driver/codegenerator.cpp`, `driver/main.cpp`): `LinkerMetadata`, `CodeGenerator`, `CodegenRun` (the
  loop over the modules, with its fatal exits), `ObjectFiles` (the list of object files from the command line on) and
  `SingleObject` (what stands where in the one object file).
- **Sanitizers** (`driver/cl_options_sanitizers.cpp`): `Sanitizers`, `SanitizerOptions` and `SanitizerNames` (the settings by
  names, bits and members).

`Common` holds the option type and facts about sequences.

## Where the code does not do what it promises

The model keeps the code as it is. Each of these is stated with the condition under which the promise holds.

- The comment in `driver/cache.cpp:400-402` promises that bad entries cannot arise. This holds for ordinary builds, in which
  processes that run at the same time have different outputs (`CacheBuilds.BuildsAreSafe`, `CacheBuilds.BuildsAreTransparent`):
  the driver deletes the old output of every source file when it has parsed it (`dmd/main.d:544-545`, `dmd/dmodule.d:1041-1047`;
  in single-object mode that of the first, which names the one file if it is compiled for the host). Otherwise an object and a recovered copy are written to
  the output path in place (`driver/toobj.cpp:105`, `driver/cache.cpp:450-451`). `CacheRuns.OpeningOutputExact`: entries,
  outputs and open files stay right if and only if the old output is absent, or a regular file that is no entry's, that no
  process needs, and that is left to the user under no other name (`CacheProtocol.OutputFree`; objects are taken not to be
  empty). There are two ways to an opening that is not like that. The module that `-main` adds is not parsed with the source
  files (`dmd/main.d:795-802`, `dmd/mars.d:2073-2085`), so in multi-object mode its old object file stays, and a plain rebuild
  opens it (`CacheWitnesses.RebuildReachable`). For source files it takes a race: another process links the same output between
  the deletion and the opening (`CacheWitnesses.RaceReachable`). For both, `CacheWitnesses.RebuildCorruptsEntry` (a hard link
  to an entry), `CacheWitnesses.RebuildCorruptsOutput` (two outputs hard-linked to one file whose entry was pruned) and
  `CacheWitnesses.RebuildThroughDanglingLink` show what happens, and `CacheWitnesses.OpeningCorruptsEntry` for an output that
  another process is still going to read.
- The old output is deleted after parsing, and again before a retrieval (`driver/cache.cpp:443-444`). All stays right if and
  only if no process is still going to read it (`CacheRuns.RemovingOutputExact`); exactly otherwise some run stores a wrong
  entry (`CacheRaces.RemovalRunsExact`), as in `CacheWitnesses.RemovalCorruptsEntry`.
- The theorems about all runs exclude only these two steps, where they do harm, and the one below
  (`CacheProtocol.Disciplined`): processes may be started at any time, for an output that any other has, and an output of any
  kind may be retrieved again (`CacheWitnesses.Retrieved`, `CacheWitnesses.RetrievedAgain`, `CacheWitnesses.RetrievedByCopy`).
- The pruner deletes all temporary files (`driver/cache_pruning.d:112-113`), also those in use. A process may then be given
  a name that another one still holds: `CacheRuns.TempReuseExact` shows that an incomplete entry can be exposed if and
  only if that happens, and `CacheWitnesses.TempReuseHappens` that it does.
- An output retrieved by symbolic link dangles once its entry is pruned: `CacheRuns.Transparent` says exactly when, and
  `CacheWitnesses.SymLinkMayDangle` shows it.
- Kept arguments are hashed without separators (`driver/cache.cpp:297`), so different argument lists can give the same
  stream: `CacheKey.FramingExact`, and `CacheKey.FilesCollide` for the names of source files. The filter also stops at `-run`
  only, while `driver/args.cpp:84-86` takes `--run` as well: `CacheKey.LongRunIsKept`, `CacheKey.ProgramArgumentsCount`.
- ldmd reads behind the terminator for the bare `-verrors`, and for nothing else (`driver/ldmd.cpp:573-578`):
  `Ldmd.ReadsBeyondExactly`.
- ldmd recognises `-run` only, but turns `-Crun`, `-C-run`, `-gdwarf=-run` and `-gdwarf=--run` into run switches and passes
  `--run` on, so that the configuration's post-switches land in front of them: `CommandLine.RunSwitchesExact`,
  `RunSuffix.LdmdSuffixExact`. `RunSuffix.ProducerDisplaces` shows it for each of the five, `RunSuffix.LongRunDisplaced` what LDC
  then parses.
- DMD keeps `-boundscheck` apart from `-check`, and lets it decide only if no `-check` option sets the bounds checks
  (`dmd/mars.d:1606-1632`, `dmd/main.d:1176-1180`). ldmd translates both to one option of LDC, whose last occurrence wins. So
  bounds checks are kept if and only if no `-boundscheck` behind the last `-check` for bounds asks for something else
  (`DmdChecks.PreservedExactly`); `-check=bounds=on -boundscheck=off` turns them off (`DmdChecks.CheckThenBoundsCheck`). The
  other settings are always kept (`DmdChecks.OthersPreserved`).
- More `-fsanitize-coverage` names can lower the coverage type: `SanitizerOptions.MonotoneExactly`,
  `SanitizerOptions.MoreNamesLess`. `-fsanitize-recover=all` also sets the bits of sanitizers without support for recovery,
  although its description says otherwise: `Sanitizers.RecoveryExactly`, `Sanitizers.AllMarksThread`.
- In single-object mode the object file is to be named after the first source file (`driver/codegenerator.cpp:194-196`), but
  `objfiles[0]` is read after the files of headers (`dmd/main.d:548-559`) and of modules for compute devices only
  (`driver/main.cpp:1294-1302`) have been dropped, and no other source's file was ever listed (`dmd/mars.d:2042-2047`). It is
  named so if and only if the first source is compiled for the host (`ObjectFiles.NamedExactly`, `ObjectFiles.SingleFileExactly`).
  Otherwise there is no element to read (`ObjectFiles.SingleFileUnnamed`: a header or a device module in front of a host
  module), or an object file given on the command line is overwritten (`ObjectFiles.InputOverwritten`).

The merge of linker and compiler-driver switches (`driver/linker-gcc.cpp:671-698`) would end early at a position that occurs in
both lists. `-L` and `-Xcc` are separate options, so the positions are distinct, and then it is complete:
`LinkerSwitches.CompleteExactly`.

## Model

| member | source | states |
|---|---|---|
| `CacheProtocol.Kept` | driver/cache.cpp:366-522 | every possible event of every process, the pruner or a crash keeps the invariant, if an output opened in place is free, one that is removed is not still going to be read, and a temporary name is not held by another process; ordinary builds meet the first two by themselves (`CacheBuilds.GuardsHold`) |
| `CacheProtocol.KeptByWrite` | driver/cache.cpp:419-425 | writing the next bytes of an object, a stored copy or a recovered copy touches no entry and no file another process relies on |
| `CacheProtocol.KeptByCreateTemp` | driver/cache.cpp:407-415 | exclusive creation of a temporary file keeps the invariant |
| `CacheProtocol.KeptByOpenTemp` | driver/cache.cpp:419-425 | reopening the temporary file for the copy keeps the invariant, also if the pruner deleted it in between |
| `CacheProtocol.KeptByRename` | driver/cache.cpp:428-435 | the rename binds the entry to a complete file that nobody still writes to |
| `CacheProtocol.KeptByRemoveOutput` | driver/cache.cpp:443-444 | removing an old output that no process is still going to read, after parsing or before a retrieval, keeps all entries and the other outputs |
| `CacheProtocol.KeptByFetch` | driver/cache.cpp:446-497 | retrieval in each of the four modes keeps the invariant |
| `CacheProtocol.KeptByOpen` | driver/cache.cpp:450-451 | opening a free output for writing, for an object or a recovered copy, gives an empty file that no other process relies on |
| `CacheProtocol.KeptByPrune` | driver/cache.cpp:524-525 | deleting any entry or temporary file at any moment keeps the invariant |
| `CacheProtocol.OthersKept` | driver/cache.cpp:386-522 | a step of one process leaves all that the others rely on as it was |
| `CacheRuns.EntriesAlwaysComplete` | driver/cache.cpp:400-435 | in every reachable state each entry holds the complete object of its hash, no process has an entry's file or another's open for writing, and whatever a process writes, copies, is going to read or leaves is right |
| `CacheRuns.Transparent` | driver/cache.cpp:438-522 | the output a finished process has made reads as the uncached compilation would give, in every later state until it is removed or opened again, exactly unless it is a symbolic link whose entry was pruned |
| `CacheRuns.MadeUntilReplaced` | driver/cache.cpp:443-497 | over every run, an output is that of the process that opened or linked it until a process removes, opens or links it again |
| `CacheRuns.TransparentUntilReplaced` | driver/cache.cpp:438-522 | so it is right whenever that process is done, over every run that does not replace it |
| `CacheRuns.TransparentAfterTouch` | driver/cache.cpp:499-521 | a process that recovered its output ends with the right output, unless it was replaced, or with a fatal error, whatever was pruned since the lookup |
| `CacheRuns.TransparentAfterRename` | driver/cache.cpp:426-435 | a process that compiled ends with the right output, unless it was replaced, and its rename succeeds while its temporary file exists |
| `CacheBuilds.GuardsHold` | dmd/main.d:544-545 | in an ordinary build every output is free when it is opened, and needed by nobody when it is removed |
| `CacheBuilds.TidyKept` | dmd/main.d:544-545 | every event keeps this: a process that waits finds its output absent, one that has made it is the last to have done so, and of two processes with the same output the earlier one has ended |
| `CacheBuilds.OrdinaryIsDisciplined` | dmd/main.d:544-545 | every run in which a process starts only for an output that no running process has, and that is deleted first or absent, is among the runs the theorems are about |
| `CacheBuilds.BuildsAreSafe` | driver/cache.cpp:400-435 | in ordinary builds, given unique temporary names only: no entry is ever incomplete and nothing a process relies on is disturbed, whatever kind of link the old outputs were |
| `CacheBuilds.BuildsAreTransparent` | driver/cache.cpp:438-522 | in ordinary builds, the output of the last process for it reads as the uncached compilation would give once that is done, exactly unless it is a symbolic link whose entry was pruned |
| `CacheRuns.OpeningOutputExact` | driver/toobj.cpp:105 | opening an output for an object or a recovered copy leaves entries, outputs and open files right if and only if the old one is absent, or a regular file that is no entry's, that no process needs, and that is left under no other name |
| `CacheRuns.RemovingOutputExact` | driver/cache.cpp:443-444 | removing the old output, after parsing or before a retrieval, leaves all of that right if and only if no process is still going to read it |
| `CacheRaces.RemovalRunsExact` | driver/cache.cpp:443-444 | if not all objects are the same, such a removal leads to a run that exposes a wrong entry if and only if a process is still going to read the output |
| `CacheRuns.TempReuseExact` | driver/cache_pruning.d:112-113 | creating a temporary file leads to a run that exposes an incomplete entry if and only if another process holds the name |
| `CacheWitnesses.SharedReachable` | driver/cache.cpp:458-496 | the state after storing an object and retrieving it by link is reachable |
| `CacheWitnesses.Retrieved` | driver/cache.cpp:443-496 | from every reachable state with the entry, an output can be retrieved by any link, whatever it was before, unless a process is still going to read it |
| `CacheWitnesses.RetrievedByCopy` | driver/cache.cpp:446-457 | likewise by copy, to a file of its own with the right content |
| `CacheWitnesses.RetrievedAgain` | driver/cache.cpp:443-496 | a run that retrieves one output by one kind of link and then by another is among the runs the theorems are about |
| `CacheWitnesses.SymLinkMayDangle` | driver/cache.cpp:484-496 | an output retrieved by symbolic link reads as nothing after one prune |
| `CacheWitnesses.RebuildReachable` | dmd/main.d:795-802 | from every reachable state, a module that is not parsed from a source file comes to open its old output |
| `CacheWitnesses.RaceReachable` | dmd/main.d:544-545 | a source file's process has deleted its old output, and then another one links the same output to an entry |
| `CacheWitnesses.RebuildCorruptsEntry` | driver/toobj.cpp:105 | both ways lead to a process about to open an output hard-linked to an entry; the entry of one hash then holds the object of another |
| `CacheWitnesses.RebuildCorruptsOutput` | driver/toobj.cpp:105 | both ways lead, without entries, to a process about to open one of two outputs linked to one file, which empties the other |
| `CacheWitnesses.RebuildThroughDanglingLink` | driver/toobj.cpp:105 | both ways lead to a process about to open a dangling symbolic link, which makes an incomplete entry |
| `CacheWitnesses.OpeningCorruptsEntry` | driver/toobj.cpp:105 | from a reachable state, opening the output of a running process makes that process store an incomplete entry |
| `CacheWitnesses.RemovalCorruptsEntry` | driver/cache.cpp:443-444 | from a reachable state, removing and linking the output of a running process makes that process store another hash's object |
| `CacheWitnesses.TempReuseHappens` | driver/cache_pruning.d:112-113 | a reachable state in which a process can be given a temporary name that another one holds, and from which an incomplete entry is exposed |
| `CacheNames.PathsDiffer` | driver/cache.cpp:211-217 | entry, temporary and output names give different paths unless they are the same name |
| `CacheNames.NamesSpelled` | driver/cache.cpp:211-217 | the path names, spelled out |
| `CacheNames.PatternsExact` | driver/cache_pruning.d:107-113 | the pruner's patterns match exactly the entry and temporary names for both object file extensions |
| `CacheKey.Judge` | driver/cache.cpp:239-294 | the character tests skip, end or keep exactly as the whitelist says, and read inside the argument only |
| `CacheKey.IsShort` | driver/cache.cpp:263-268 | the counting loop tells whether the argument has fewer than 11 characters |
| `CacheKey.JudgeLong` | driver/cache.cpp:270-293 | the remaining tests amount to prefixes and equalities |
| `CacheKey.OutputRelevantArgs` | driver/cache.cpp:225-298 | the loop writes the concatenation of the kept arguments before the first `-run` |
| `CacheKey.IgnorableIsIgnored` | driver/cache.cpp:226-231 | inserting or deleting an ignorable argument leaves the stream unchanged |
| `CacheKey.NothingAfterRun` | driver/cache.cpp:290-293 | nothing behind a `-run` changes the stream |
| `CacheKey.KeptIsHashed` | driver/cache.cpp:296-297 | an argument that is not ignorable is part of the stream at its place |
| `CacheKey.FramingExact` | driver/cache.cpp:297 | equal streams come from equal lists of kept arguments if and only if the lengths agree |
| `CacheKey.FramingIsLost` | driver/cache.cpp:297 | two arguments and their concatenation give the same stream |
| `CacheKey.SkippedIsIgnored` | driver/cache.cpp:239-294 | for the filter itself: an argument of the whitelist changes nothing wherever it stands |
| `CacheKey.FilesCollide` | driver/cache.cpp:297 | for the filter itself: two source files and one whose name is both names joined give the same stream |
| `CacheKey.LongRunIsKept` | driver/cache.cpp:290-297 | for the filter itself: `--run` is kept, and so is what follows it |
| `CacheKey.ProgramArgumentsCount` | driver/cache.cpp:290-297 | for the filter itself: the program's arguments change the stream behind `--run`, and never behind `-run` |
| `CacheKey.CountsExactly` | driver/cache.cpp:239-297 | an argument in front of `-run` is written, or leaves no trace, exactly by its characters and its length, letter by letter |
| `CacheKey.TargetCounts` | driver/cache.cpp:239-297 | another value of `-mtriple=`, `-mcpu=`, `-mattr=` or `-relocation-model=` gives another stream |
| `EnvTokenizer.ScanInPlace` | driver/ldmd.cpp:322-367 | one token is compacted in place to what the specification scans; nothing before the token and nothing unread changes |
| `EnvTokenizer.Round` | driver/ldmd.cpp:330-364 | one character read either stores the whole token or keeps what is written and what remains to be scanned together equal to it |
| `EnvTokenizer.Put` | driver/ldmd.cpp:331-363 | the character is written at the cursor, or a quote over the backslashes in front of it |
| `EnvTokenizer.SplitInPlace` | driver/ldmd.cpp:312-368 | the NUL-terminated strings at the pushed pointers are exactly the tokens of the original text |
| `EnvTokenizer.AppendEnvVar` | driver/ldmd.cpp:304-369 | likewise for the variable's value, and nothing for an empty one |
| `EnvTokenizer.KeepLayout` | driver/ldmd.cpp:330-364 | one character read keeps the write cursor between token start and read cursor, with the right characters written |
| `EnvTokenizer.KeepProgress` | driver/ldmd.cpp:330-364 | what is written plus what remains to be scanned is always the token |
| `EnvTokenizer.ScanBody` | driver/ldmd.cpp:331-363 | a quoted body is read back as the argument it was made from |
| `EnvTokenizer.RoundTrip` | driver/ldmd.cpp:304-369 | every list of arguments, quoted and joined with blanks, tokenizes back to exactly the list |
| `EnvWords.Split` | driver/ldmd.cpp:312-368 | words of plain characters, quoted parts and backslashes, with any runs of spaces and tabs between and around them, are split into exactly what they stand for |
| `EnvWords.PlainWordsSplit` | driver/ldmd.cpp:313-353 | words without blanks and quotes are the tokens, backslashes included, whatever runs of spaces and tabs separate and surround them |
| `EnvWords.QuotedInside` | driver/ldmd.cpp:332-345 | a quoted part may stand inside a word, blanks and all |
| `EnvWords.EscapedQuote` | driver/ldmd.cpp:332-337 | 2k+1 backslashes and a quote stand for k backslashes and a quote |
| `EnvWords.Unclosed` | driver/ldmd.cpp:342-357 | without the closing quote the token goes on to the end |
| `Ldmd.FindRun` | driver/ldmd.cpp:391-397 | the search loop finds the first run switch behind the executable, 0 standing for none |
| `Ldmd.InsertDflags` | driver/ldmd.cpp:387-400 | DFLAGS are put before a first `-run`, else at the end |
| `Ldmd.TranslateLoop` | driver/ldmd.cpp:410-757 | the loop emits the translations of the arguments in order, and copies everything from a `-run` on |
| `Ldmd.TranslateArgs` | driver/ldmd.cpp:376-757 | the executable, `-ldmd`, then the translated arguments with DFLAGS inserted |
| `Ldmd.ReadsBeyondExactly` | driver/ldmd.cpp:573-578 | the translation depends on memory behind the terminator if and only if the option is the bare `-verrors` |
| `LdmdTable.CheckOptions` | driver/ldmd.cpp:425-477 | `-check=`: what every spelled-out value becomes; any other is passed on as it is |
| `LdmdTable.OptionsC` | driver/ldmd.cpp:482-499 | `-color`, with its three values; any other option with this letter is passed on |
| `LdmdTable.OptionsV` | driver/ldmd.cpp:413-586 | `-vdmd`, `-visibility=`, `-vasm`, `-vtls`, `-verrors` and `-version=`; any other is passed on |
| `LdmdTable.OptionsD` | driver/ldmd.cpp:509-699 | `-dylib`, `-debug` and `-debug=`; any other is passed on |
| `LdmdTable.OptionsF` | driver/ldmd.cpp:511-518 | `-fIBT`, `-fPIC`, `-fPIE`; any other is passed on |
| `LdmdTable.OptionsM` | driver/ldmd.cpp:520-604 | `-map`, `-multiobj`, `-m32mscoff`, `-mcpu=` and `-man`; any other is passed on |
| `LdmdTable.OptionsG` | driver/ldmd.cpp:528-540 | `-gdwarf=`, `-gf`, `-gs`, `-gx`, `-gt`; any other is passed on |
| `LdmdTable.OptionsP` | driver/ldmd.cpp:550-558 | `-profile` and `-profile=gc`; any other is passed on |
| `LdmdTable.OptionsT` | driver/ldmd.cpp:587-588 | `-target=`; any other is passed on |
| `LdmdTable.OptionsO` | driver/ldmd.cpp:605-623 | `-o` and `-os=` end ldmd; any other is passed on |
| `LdmdTable.OptionsI` | driver/ldmd.cpp:638-641 | `-inline`; any other is passed on |
| `LdmdTable.OptionsL` | driver/ldmd.cpp:648-656 | `-lib`; any other is passed on |
| `LdmdTable.OptionsN` | driver/ldmd.cpp:657-672 | `-nofloat`, `-noboundscheck`, `-nothrow`; any other is passed on |
| `LdmdTable.OptionsQ` | driver/ldmd.cpp:659-661 | `-quiet`; any other is passed on |
| `LdmdTable.OptionsH` | driver/ldmd.cpp:724-727 | `-h` ends ldmd; any other is passed on |
| `LdmdTable.OptionsR` | driver/ldmd.cpp:742-744 | `-run` starts the arguments of the program; any other is passed on |
| `LdmdTable.OptionsDash` | driver/ldmd.cpp:720-746 | the bare dash, `--b` and its five relatives, `--help` and `--version`; any other is passed on |
| `LdmdTable.OptionsCapitalC` | driver/ldmd.cpp:747-748 | `-C...` loses its letter |
| `LdmdTable.OtherOptions` | driver/ldmd.cpp:749-752 | options with any other letter are passed on |
| `LdmdTable.NoOption` | driver/ldmd.cpp:758-772 | an argument without a dash is passed on, or names the output exactly if it ends in `.exe` in any case |
| `LdmdTable.NamedCondition` | driver/ldmd.cpp:677-719 | every named version and debug condition is passed on under LDC's option |
| `LdmdLists.OthersKept` | driver/ldmd.cpp:513-517 | no other argument depends on an earlier `-fPIC`, or counts as one |
| `LdmdLists.FurtherPicIgnored` | driver/ldmd.cpp:513-517 | a further `-fPIC` in front of `-run` gives LDC nothing, and changes nothing for what follows |
| `LdmdLists.Ends` | driver/ldmd.cpp:410-757 | the seven options that end ldmd, by their text |
| `LdmdLists.EndsExactly` | driver/ldmd.cpp:410-757 | for every list: ldmd ends without calling LDC if and only if one of them stands in front of a first `-run` |
| `LdmdLists.InOrder` | driver/ldmd.cpp:410-757 | for every list: what stands in front of a place is passed on in front of what stands behind it |
| `LdmdLists.OneByOne` | driver/ldmd.cpp:410-757 | what the last argument, the end of the list and `-run` become |
| `Levels.AcceptedExactly` | driver/ldmd.cpp:683-690 | a level is accepted if and only if it is all digits and at most INT_MAX, and then is the number denoted |
| `Levels.ValueExactly` | driver/ldmd.cpp:683-690 | the number denoted, digit by digit |
| `Levels.PrintIsDigits` | driver/ldmd.cpp:91-95 | a printed level is its digits, reads back to the same number and has no leading zero |
| `Levels.FitsBuffer` | driver/ldmd.cpp:91-95 | every printed level fits the 14-byte buffer with its terminator |
| `Levels.PrintedBack` | driver/ldmd.cpp:682-691 | printing the number a string of digits denotes gives the string without leading zeros |
| `LevelTranslation.LevelTranslated` | driver/ldmd.cpp:677-719 | for every value that starts with a digit: a level is passed on without leading zeros, everything else unchanged |
| `LevelTranslation.LevelKept` | driver/ldmd.cpp:682-713 | the level passed on denotes the same number |
| `CommandLine.ExtendCommandLine` | driver/configfile.cpp:201-215 | the configuration's switches go first, its post-switches before a first run switch |
| `CommandLine.OptionRun` | driver/ldmd.cpp:412-757 | which options of all groups become run switches |
| `CommandLine.RunSwitchesExact` | driver/ldmd.cpp:742-748 | only `-run` starts the program's arguments, and exactly five options are translated to a run switch |
| `RunSuffix.PassedAlone` | driver/ldmd.cpp:410-757 | the options are passed on as if there were no suffix, also when DFLAGS hold a `-run` |
| `RunSuffix.AfterStage1` | driver/ldmd.cpp:387-757 | behind ldmd, the actual order agrees with the promised one up to a first run switch, and everywhere if there is none or DFLAGS hold no `-run` |
| `RunSuffix.Stage1Exactly` | driver/ldmd.cpp:742-748 | the two orders are the same if and only if nothing behind a `-run` of the options needs translation |
| `RunSuffix.Stage2Splits` | driver/configfile.cpp:201-215 | with a run switch in front, the post-switches go before it, which gives the promised order exactly if both splits are equal |
| `RunSuffix.Stage2General` | driver/configfile.cpp:201-215 | with a run switch in front, the promised order holds exactly if the post-switches in front of the options passed on give the same as behind the promised ones |
| `RunSuffix.AfterStage2` | driver/configfile.cpp:201-215 | behind the configuration file, the order is the promised one if no run switch precedes the suffix; otherwise exactly if the post-switches commute with what they are put before, never for an ordinary first post-switch; without post-switches exactly if the first stage kept it |
| `RunSuffix.SuffixExact` | driver/configfile.cpp:201-215 | through both stages: executable, switches, `-ldmd`, translated options, post-switches and the untouched suffix from `-run`, if nothing before becomes a run switch; when the first post-switch is not a run switch only then; and exactly when, for every list of post-switches and every DFLAGS |
| `RunSuffix.LdmdIsExact` | driver/ldmd.cpp:410-757 | the theorem applies to ldmd's translation |
| `RunSuffix.LdmdSuffixExact` | driver/ldmd.cpp:410-757 | for ldmd itself: with an ordinary first post-switch, the order is the promised one if and only if neither user nor DFLAGS give one of the six options and the configuration gives no run switch |
| `RunSuffix.ProducerDisplaces` | driver/ldmd.cpp:742-757 | each of the five options, in front of a user's `-run`, gets the post-switch in front of itself |
| `RunSuffix.LongRunDisplaced` | driver/configfile.cpp:201-215 | what LDC parses for `--run -run a.d` with one post-switch |
| `CheckFlags.FlagParser.Initialize` | driver/cl_helpers.h:65-77 | the parser holds the enabling and the disabling switch |
| `CheckFlags.FlagParser.ParseValue` | driver/cl_helpers.h:136-149 | the boolean spellings, and an unchanged value on an error |
| `CheckFlags.FlagParser.Parse` | driver/cl_helpers.h:109-127 | the value for either switch, inverted for the disabling one; an error for everything else |
| `CheckFlags.MultiSetter.constructor` | driver/cl_helpers.cpp:43-54 | the locations are the pointers before the null |
| `CheckFlags.MultiSetter.Assign` | driver/cl_helpers.cpp:56-60 | every location is set, inverted if asked for |
| `CheckFlags.GlobalParams.HandleContracts` | driver/cl_options.cpp:484-488 | `contracts` sets the settings for pre- and postconditions together |
| `CheckFlags.GlobalParams.Handle` | driver/cl_options.cpp:449-488 | an option changes the six settings as the evaluation function says, and nothing on an error |
| `CheckTranslation.OptionTranslated` | driver/ldmd.cpp:425-479 | every recognised check option is translated to the LDC options for it, at every place |
| `CheckTranslation.OptionPreserved` | driver/cl_helpers.h:109-150 | evaluating the translation sets what the option names |
| `CheckTranslation.SplitSuffix` | driver/ldmd.cpp:444-457 | the kind and `=on` or `=off` are split correctly |
| `CheckTranslation.AppliedInOrder` | driver/ldmd.cpp:425-479 | for every sequence of recognised check options, evaluating ldmd's output applies them to the six settings from left to right |
| `DmdChecks.LegalOther` | dmd/mars.d:806-827 | no spelling of one kind is taken for another, although `in` is a prefix of `invariant` |
| `DmdChecks.ParsedMeans` | dmd/mars.d:796-860 | DMD's parser accepts every recognised option and sets what it names, `-boundscheck` going to a setting of its own |
| `DmdChecks.ParsedAllMeans` | dmd/mars.d:796-1632 | the same for every sequence of recognised options |
| `DmdChecks.DmdBounds` | dmd/main.d:1176-1180 | DMD's two bounds settings are those of the last `-check` and the last `-boundscheck` |
| `DmdChecks.LdcBounds` | driver/ldmd.cpp:425-479 | LDC's bounds setting is that of the last of both, and all other settings agree with DMD's |
| `DmdChecks.PreservedExactly` | driver/ldmd.cpp:425-479 | for every sequence of recognised options: LDC ends up with DMD's settings if and only if no `-boundscheck` behind the last `-check` for bounds asks for something else |
| `DmdChecks.OthersPreserved` | driver/ldmd.cpp:425-479 | the settings other than the one for bounds are always DMD's |
| `DmdChecks.CheckThenBoundsCheck` | dmd/main.d:1176-1180 | a command line for which DMD checks bounds and LDC does not |
| `FlagValues.SwitchValues` | driver/cl_helpers.h:109-149 | the value of both switches of each option, by its spelling; what is no boolean is refused |
| `FlagValues.SettingOf` | driver/cl_options.cpp:449-488 | which setting each option changes; `contracts` changes two |
| `FlagValues.BoundsValues` | driver/cl_options.cpp:454-460 | the three values of `-boundscheck`; any other is refused |
| `FlagValues.OtherOption` | driver/cl_helpers.h:109-127 | any other name, with or without a value, is none of these options |
| `FlagValues.NamesExactly` | driver/cl_helpers.h:111-114 | a parser takes exactly its two switches, alone or with a value attached |
| `LinkerSwitches.ArgsBuilder.AddUserSwitches` | driver/linker-gcc.cpp:671-698 | the loop appends the expansions of the merged switches, `-Xlinker` only before linker switches the driver does not take |
| `LinkerSwitches.TakesPrefixes` | driver/linker-gcc.cpp:672-698 | whatever the positions, each list is taken from its front in order, each switch at most once |
| `LinkerSwitches.CompleteExactly` | driver/linker-gcc.cpp:672-698 | for lists in position order, both are exhausted if and only if no position is the sentinel or in both lists |
| `LinkerSwitches.MergeInOrder` | driver/linker-gcc.cpp:671-698 | the switches come in position order |
| `LinkerSwitches.OnlyOrder` | driver/linker-gcc.cpp:671-698 | an interleaving in position order is the merge of its two lists: there is only one |
| `LinkerSwitches.WrittenExactly` | driver/linker-gcc.cpp:679-694 | each switch is written in its place, a linker switch behind `-Xlinker` exactly if it has none of five prefixes |
| `LinkerSwitches.SingleSwitch` | driver/linker-gcc.cpp:672-678 | a single switch is written unless its position is 4294967295 |
| `ResponseFile.Text` | driver/args.cpp:126-141 | the quoting loops write the lines of all arguments |
| `ResponseFile.ReadsEscaped` | driver/args.cpp:130-139 | a reader inside the quotes undoes the escapes |
| `ResponseFile.RoundTrip` | driver/args.cpp:126-141 | reading the text gives back every argument list exactly |
| `ResponseFile.PrefixExactly` | driver/args.cpp:126-141 | one text is a prefix of, or equal to, another if and only if the lists are |
| `ResponseFile.TextExactly` | driver/args.cpp:126-141 | the text, character by character: quotes around each argument, one line each, and which characters are escaped |
| `ResponseFile.File.Setup` | driver/args.cpp:111-151 | a file is created only if the command line does not fit, and success means that its text is complete |
| `ResponseFile.File.Delete` | driver/args.cpp:104-107 | the destructor removes the file |
| `ResponseFile.ExecuteAndWait` | driver/args.cpp:155-181 | a started program receives exactly the arguments, directly or through the file; it is started exactly if that is possible; no file stays behind |
| `Archiver.Tool.AddPath` | driver/archiver.cpp:74-89 | appends or replaces a member named by the basename that holds the file's content, or fails on an unreadable file |
| `Archiver.Tool.FindMember` | driver/archiver.cpp:117-119 | finds the first unused path with the member's name |
| `Archiver.Tool.ReplaceOldMembers` | driver/archiver.cpp:110-133 | the loop over the old members keeps or replaces each as planned and erases the used paths |
| `Archiver.Tool.AppendRemaining` | driver/archiver.cpp:135-143 | the remaining paths are put behind, in order |
| `Archiver.Tool.ComputeNewArchiveMembers` | driver/archiver.cpp:108-146 | the new members are the loaded plan, which is the old archive updated member by member; it fails if and only if a path is unreadable |
| `Archiver.Tool.PerformWriteOperation` | driver/archiver.cpp:169-190 | the archive becomes the old one updated member by member, or stays as it was on a failure |
| `Archiver.Tool.InternalAr` | driver/archiver.cpp:215-232 | the same for the command line |
| `Archiver.Idempotent` | driver/archiver.cpp:108-146 | a second run with the same paths gives the same archive, duplicates allowed |
| `Archiver.NothingAppendedAgain` | driver/archiver.cpp:135-143 | in a second run no path is left over to be appended |
| `Archiver.Pairing` | driver/archiver.cpp:112-131 | the k-th old member of a name is replaced by the k-th path of that name while there is one |
| `Archiver.NamesKeptThenSurplus` | driver/archiver.cpp:112-143 | the old names stay in order, and behind them come exactly the unmatched paths in order |
| `Archiver.MergedCount` | driver/archiver.cpp:108-146 | each name occurs as often as in the old archive or in the paths, whichever is more |
| `Archiver.Conservation` | driver/archiver.cpp:108-146 | every path contributes exactly one member |
| `Archiver.WrittenExactly` | driver/archiver.cpp:74-146 | the archive written, member by member: the content of the k-th path for the k-th old member of a name while there is one, the old member otherwise, and the surplus paths' contents behind |
| `Archiver.BasenameExactly` | driver/archiver.cpp:80-81 | a member is named by what stands behind the last separator of its path, or the whole path without one |
| `Archiver.KthExactly` | driver/archiver.cpp:117-131 | the k-th path of a name is the one with k of that name in front of it |
| `Archiver.SurplusExactly` | driver/archiver.cpp:135-143 | a path is surplus exactly if the paths in front of it use up all old members of its name |
| `LinkerMetadata.IRState.AddLinkerMetadata` | driver/codegenerator.cpp:73-97 | new operands are put in front of the old ones; nothing happens without new ones |
| `LinkerMetadata.IRState.InsertBitcodeFiles` | driver/linker.cpp:276-281 | the units and operands of all bitcode files are appended in order |
| `LinkerMetadata.IRState.Finish` | driver/codegenerator.cpp:243-263 | the module is completed with linker options, dependent libraries and identification |
| `LinkerMetadata.OperandsExactly` | driver/codegenerator.cpp:73-105 | in every written module the operands are the compiled ones followed by those of the bitcode files, each in order, none lost or repeated |
| `SingleObject.UnitsAppend` | driver/codegenerator.cpp:278-305 | the compiled modules stand in the order of their code generation |
| `SingleObject.OneAlone` | gen/irstate.cpp:258-269 | what one module puts in |
| `SingleObject.OptionsAppend` | gen/irstate.cpp:258-264 | the linker options of several modules stand in the order of their code generation |
| `SingleObject.LibsAppend` | gen/irstate.cpp:266-269 | likewise the dependent libraries |
| `SingleObject.BitcodeAppend` | driver/linker.cpp:276-281 | the units and operands of bitcode files stand in the order of the files |
| `CodeGenerator.CodeGenerator.constructor` | driver/codegenerator.cpp:173-190 | starts without an IRState |
| `CodeGenerator.CodeGenerator.PrepareLLModule` | driver/codegenerator.cpp:206-227 | reuses the IRState in single-object mode only; the assertion that there is none never fails |
| `CodeGenerator.CodeGenerator.FinishLLModule` | driver/codegenerator.cpp:229-240 | in multi-object mode writes the module, with the bitcode files for the first one, and frees it |
| `CodeGenerator.CodeGenerator.WriteAndFreeLLModule` | driver/codegenerator.cpp:242-276 | writes one file with the completed module and frees the IRState |
| `CodeGenerator.CodeGenerator.Emit` | driver/codegenerator.cpp:278-305 | ends the run exactly with errors pending or reported by this module, before anything is written for it; otherwise exactly one more module is emitted and the life-cycle invariant holds again |
| `CodeGenerator.CodeGenerator.CompleteLLModule` | driver/codegenerator.cpp:295-299 | the module's code is added to that of the modules before it, and written and freed in multi-object mode |
| `CodeGenerator.CodeGenerator.Destroy` | driver/codegenerator.cpp:192-204 | in single-object mode writes the one file for all modules, if there are any |
| `CodegenRun.Remove` | driver/main.cpp:1294-1302 | the loop drops the first element at the address and keeps all others |
| `CodegenRun.EmitOne` | driver/main.cpp:1268-1307 | one round emits a host module, drops the object file of a device-only one, and ends the run exactly if its attribute or its code generation is in error |
| `CodegenRun.EmitAll` | driver/main.cpp:1268-1307 | the modules are completed from the last one on, up to one that ends the run; what is written and what the destructor will write are together the files of the run |
| `CodegenRun.Generate` | driver/main.cpp:1246-1326 | with the destructor, exactly the files of the run are written; after a fatal error it does not run |
| `CodegenRun.CodegenModules` | driver/main.cpp:1246-1326 | the whole function: files written, object files left, linking only if one is left, and when it is fatal |
| `CodegenRun.AllCompleted` | driver/main.cpp:1305-1306 | the run is fatal if and only if a module stops it |
| `CodegenRun.RunFilesExactly` | driver/main.cpp:1268-1307 | a run that no module stops writes exactly the files of its mode for all host modules in reverse order |
| `CodegenRun.RunFilesStopped` | driver/main.cpp:1305-1306 | otherwise, nothing in single-object mode, and in multi-object mode the host modules behind the last one that stops it |
| `CodeGenerator.SeparateAt` | driver/codegenerator.cpp:229-240 | in multi-object mode file i is that of module i alone, the bitcode files being in the first only |
| `CodeGenerator.UnitsConserved` | driver/codegenerator.cpp:192-240 | in both modes every module is written exactly once, and the bitcode files exactly once if there is a module and never otherwise |
| `CodeGenerator.OptionsConserved` | driver/codegenerator.cpp:99-105 | the same for the linker options over all files |
| `ObjectFiles.CreateModules` | dmd/mars.d:2020-2070 | source, bitcode and object files are sorted in order; in single-object mode only the first source's object file is listed, in front |
| `ObjectFiles.DropHeaders` | dmd/main.d:504-560 | the object files of headers are dropped, and nothing is linked if none is left then |
| `ObjectFiles.Compile` | driver/main.cpp:1246-1326 | from the command line to the files written and the object files left, and when it is linked |
| `ObjectFiles.LeftOverIsDrop` | driver/main.cpp:1294-1302 | the searches for headers and device-only modules together drop exactly the elements of sources that are not compiled for the host |
| `ObjectFiles.SingleLeftOver` | dmd/mars.d:2040-2067 | in single-object mode the given object files are left, behind the first source's own exactly if it is compiled for the host |
| `ObjectFiles.NamedExactly` | driver/codegenerator.cpp:194-196 | `objfiles[0]` is the first source's own object file if and only if that source is compiled for the host; otherwise it is the first object file given, or missing |
| `ObjectFiles.SingleFileExactly` | driver/codegenerator.cpp:192-204 | the one file a single-object compilation writes: its name and its content |
| `ObjectFiles.SingleFileUnnamed` | driver/codegenerator.cpp:196 | a header or device-only source in front of a host source: the file is named after an element that does not exist |
| `ObjectFiles.InputOverwritten` | driver/codegenerator.cpp:196 | with an object file on the command line, that file is overwritten |
| `ObjectFiles.MultiLeftOver` | driver/main.cpp:1294-1302 | in multi-object mode exactly the given object files and those of the sources compiled for the host are left, in order |
| `ObjectFiles.LinkedExactly` | driver/main.cpp:1294-1302 | in multi-object mode a source's own object file is left to be linked if and only if the source is compiled for the host |
| `ObjectFiles.SourcesExactly` | driver/main.cpp:1294-1302 | the sources a list of object files is of are exactly those whose own object file is in it |
| `ObjectFiles.LinkedAreWritten` | driver/main.cpp:1268-1307 | in multi-object mode, if no module stops the run, the files written are exactly those of the sources whose object files are left to be linked |
| `ObjectFiles.BackwardsAt` | driver/main.cpp:1268 | the k-th of them from the end is written as file k, one file for each |
| `SingleObject.HostsAppend` | driver/main.cpp:1268-1292 | the modules are generated from the last source on, except headers and sources for devices only |
| `SingleObject.ListsAppend` | dmd/mars.d:2026-2070 | a further file on the command line is the last one of the lists of its kind |
| `SingleObject.LinkedAppend` | driver/main.cpp:1294-1302 | in multi-object mode a further file adds its object file to those left to be linked exactly if it is an object file, or a source compiled for the host |
| `SingleObject.ImageAt` | driver/codegenerator.cpp:192-263 | in the one file, what each source puts in stands behind what the later sources put in, and in front of the earlier sources and the bitcode files |
| `SingleObject.SingleFileAt` | driver/codegenerator.cpp:192-263 | a whole single-object compilation writes one file, in which the unit, linker options and libraries of each host source stand at the place given by the later ones |
| `Sanitizers.ParseSanitize` | driver/cl_options_sanitizers.cpp:59-68 | the loop collects the bits of all names and one error per unknown name |
| `Sanitizers.ParseRecover` | driver/cl_options_sanitizers.cpp:70-86 | likewise for recovery |
| `Sanitizers.CheckExactly` | driver/cl_options_sanitizers.cpp:180-188 | each name selects the sanitizer it spells, and nothing else does |
| `Sanitizers.EnabledExactly` | driver/cl_options_sanitizers.cpp:59-68 | a sanitizer is on if and only if its name is given |
| `Sanitizers.RecoveryExactly` | driver/cl_options_sanitizers.cpp:70-86 | a sanitizer may recover if and only if `all` is given, or its name and it supports recovery |
| `Sanitizers.AllMarksThread` | driver/cl_options_sanitizers.cpp:70-86 | `all` sets the bit of the thread sanitizer, which does not support recovery and contributes nothing when named |
| `Sanitizers.RecoverErrorExactly` | driver/cl_options_sanitizers.cpp:77-83 | an unknown name gives both errors, a name without support one |
| `Sanitizers.OrderIndependent` | driver/cl_options_sanitizers.cpp:59-86 | collected bits depend on the set of names only |
| `SanitizerOptions.ParseCoverage` | driver/cl_options_sanitizers.cpp:88-138 | a name raises the type or sets the member it spells, or is an error |
| `SanitizerOptions.FlagExactly` | driver/cl_options_sanitizers.cpp:99-134 | each name sets the member it spells, and nothing else does |
| `SanitizerOptions.HighestExactly` | driver/cl_options_sanitizers.cpp:90-98 | the collected type is the maximum of the types named |
| `SanitizerOptions.Globals.ParseCoverageParameters` | driver/cl_options_sanitizers.cpp:140-147 | the loop collects all names and enables coverage if there is one |
| `SanitizerOptions.Globals.Initialize` | driver/cl_options_sanitizers.cpp:197-221 | the settings are those of the collected names, the fuzzer's implications and the implied type |
| `SanitizerOptions.SettingsOrderIndependent` | driver/cl_options_sanitizers.cpp:197-221 | permuting or repeating names in the three lists gives the same settings |
| `SanitizerOptions.TypeExactly` | driver/cl_options_sanitizers.cpp:214-221 | the type is the highest named one, or Edge exactly if none is named and tracing or inline counters are on |
| `SanitizerOptions.FlagGiven` | driver/cl_options_sanitizers.cpp:204-212 | a member is on if and only if it is named or the fuzzer implies it |
| `SanitizerOptions.MonotoneExactly` | driver/cl_options_sanitizers.cpp:214-221 | more names never clear a bit or member; they lower the type exactly if Edge was implied without a type named, and a type is named now but not `edge` |
| `SanitizerOptions.MoreNamesLess` | driver/cl_options_sanitizers.cpp:214-221 | `-fsanitize=fuzzer` selects Edge, and with `-fsanitize-coverage=func` in addition only Function |
| `SanitizerNames.EnabledBits` | driver/cl_options_sanitizers.cpp:197-212 | each bit by number: on exactly if its sanitizer is named, and the coverage bit exactly if the fuzzer or a coverage name is given |
| `SanitizerNames.RecoveryBitsByName` | driver/cl_options_sanitizers.cpp:70-86 | each recovery bit by number: on exactly through `all`, `address` or `memory` |
| `SanitizerNames.FuzzerMembers` | driver/cl_options_sanitizers.cpp:204-212 | the four members that the fuzzer turns on without being named |
| `SanitizerNames.TraceMembers` | driver/cl_options_sanitizers.cpp:105-121 | the tracing members are on exactly if they are named |
| `SanitizerNames.PCMembers` | driver/cl_options_sanitizers.cpp:123-128 | likewise the two kinds of pc tracing |
| `SanitizerNames.OtherMembers` | driver/cl_options_sanitizers.cpp:119-133 | likewise the 8-bit counters and `no-prune` |
| `SanitizerNames.TypeByName` | driver/cl_options_sanitizers.cpp:90-98 | the coverage type by the names given |
| `SanitizerNames.ErrorsByName` | driver/cl_options_sanitizers.cpp:59-86 | which errors each name gives |
| `SanitizerNames.CoverageErrorByName` | driver/cl_options_sanitizers.cpp:88-138 | which names are no coverage options |
| `SanitizerNames.ErrorsAppend` | driver/cl_options_sanitizers.cpp:59-147 | errors are reported in the order of the names |

## Left out

- The file system itself: exclusive creation, atomic rename, unlink, link and in-place truncation are the events of the
  cache model; no failure is modelled other than by a process ending at an arbitrary point.
- The cache directory's own existence and creation (`driver/cache.cpp:370-373`, `391-398`).
- The hash: it is a name that determines the object; MD5, bitcode writing and the parts of `calculateModuleHash` other
  than the command-line arguments are not part of this model.
- The pruning algorithm (expiry and size): any entry or temporary file may be deleted at any moment.
- How long a unique temporary name stays unused: `CacheProtocol.Disciplined` states what is needed, and
  `CacheRuns.TempReuseExact` what happens otherwise.
- A driver that compiles several modules is one process for each of them, and the deletion of object files behind linking
  (`dmd/main.d:853-861`) is not an event.
- The order of writes within one copy: a process writes its bytes from front to back in chunks of any size.
- `CacheProtocol.Kept`: an `AnyLink` retrieval is modelled as a symbolic link, which is what `create_link` makes on POSIX
  hosts.
- Response file expansion (`response_expand`), environment access and starting processes.
- Options of `translateArgs` that end ldmd are one outcome; what they print is not modelled, nor are its warnings.
- `-release`, `-unittest` and the defaults, which fill in check settings that no option names (`dmd/main.d:1182-1227`).
- LLVM's command-line library, except that options are applied from left to right; check options spelled with two dashes
  are not modelled.
- `ResponseFile.Decode`: a reader in the style of GNU's `buildargv` stands for the called program; the encoding of the file
  and nested response files are not modelled. The Windows quoting branches are left out.
- Basenames of archive paths that end in a separator, the archive kind and format, thin archives and write errors
  (`driver/archiver.cpp:93-99`, `175-187`).
- `CodeGenerator.CodeGenerator.Emit`: errors reported behind the check of `gen/modules.cpp:440`, by later code generation or
  LLVM's passes, end the run in `driver/toobj.cpp:379-382` before the file is written, but not if the object is found in the
  cache: it is recovered in front of that check (`driver/toobj.cpp:356-360`). The model has neither these errors nor the cache.
- The compiler's version number behind `ldc version` in its identification (`driver/codegenerator.cpp:258-261`), and the
  arguments of ldmd that only exist on Windows (`driver/ldmd.cpp:765-770`).
- What an error during code generation is: a module's `fails` and `badAttr` say whether one is reported. The bitcode loader's
  errors, debug information, `llvm.used`, DCompute output, MLIR and the 32-bit width of the module counter.
- `ObjectFiles.CreateModules`: libraries and the other kinds of files, Ddoc sources (`dmd/main.d:560-583`), and the modules
  added by `-main` and `-i`. The driver compares addresses of object file names (`driver/main.cpp:1296-1298`); a place on the
  command line stands for such an address.
- The bits of sanitizer settings are sets of bit positions; loading the sanitizer blacklist and writing the settings to the
  hash are left out.
- Linking, library and plugin search paths, LTO, profile-guided optimisation and the C preprocessor, which would add
  easy members only.
