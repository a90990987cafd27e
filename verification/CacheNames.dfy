/** The file names of the cache (driver/cache.cpp) and the patterns the pruner deletes by
    (driver/cache_pruning.d). The protocol keeps entries, temporary files and outputs apart by
    construction; here their path names are shown to differ. */
module CacheNames {
  import opened CacheProtocol

  /** The kinds of names in the protocol. */
  datatype Name = EntryName(hash: Hash) | TemporaryName(temp: TempName) | OutputName(path: Path)

  /** The length of an MD5 digest in hexadecimal, and of the random part of a unique name. */
  const HASH_LENGTH := 32
  const SUFFIX_LENGTH := 7

  function EntryFile(h: Hash, ext: string): string {
    "ircache_" + h + "." + ext
  }

  function TempFile(t: TempName, ext: string): string {
    EntryFile(t.hash, ext) + ".tmp" + t.suffix
  }

  /** The path of a name, for a cache directory and the target's object file extension. */
  function PathOf(dir: string, ext: string, name: Name): Path {
    match name
    case EntryName(h) => dir + "/" + EntryFile(h, ext)
    case TemporaryName(t) => dir + "/" + TempFile(t, ext)
    case OutputName(o) => o
  }

  /** Hashes and unique parts have fixed lengths, and outputs are outside of the cache directory. */
  ghost predicate WellFormed(dir: string, name: Name) {
    match name
    case EntryName(h) => |h| == HASH_LENGTH
    case TemporaryName(t) => |t.hash| == HASH_LENGTH && |t.suffix| == SUFFIX_LENGTH
    case OutputName(o) => !(dir + "/" <= o)
  }

  /** Two names have the same path only if they are the same; in particular no temporary name is an entry name. */
  lemma PathsDiffer(dir: string, ext: string, a: Name, b: Name)
    requires WellFormed(dir, a) && WellFormed(dir, b) && PathOf(dir, ext, a) == PathOf(dir, ext, b)
    ensures a == b
  {
    var p := PathOf(dir, ext, a);
    if !a.OutputName? {
      assert dir + "/" <= p;
      HashAt(dir, ext, a);
    }
    if !b.OutputName? {
      assert dir + "/" <= p;
      HashAt(dir, ext, b);
    }
  }

  lemma HashAt(dir: string, ext: string, a: Name)
    requires WellFormed(dir, a) && !a.OutputName?
    ensures
      var p := PathOf(dir, ext, a);
      var n := |dir| + 1 + |"ircache_"|;
      var m := n + HASH_LENGTH + 1 + |ext|;
      && (a.EntryName? ==> |p| == m && p[n..n + HASH_LENGTH] == a.hash)
      && (a.TemporaryName? ==> |p| == m + 4 + SUFFIX_LENGTH && p[n..n + HASH_LENGTH] == a.temp.hash && p[m + 4..] == a.temp.suffix)
  {
    var p := PathOf(dir, ext, a);
    var n := |dir| + 1 + |"ircache_"|;
    var m := n + HASH_LENGTH + 1 + |ext|;
    match a
    case EntryName(h) =>
      assert p == (dir + "/" + "ircache_") + (h + "." + ext);
    case TemporaryName(t) =>
      assert p == (dir + "/" + "ircache_") + (t.hash + "." + ext + ".tmp" + t.suffix);
      assert p == (dir + "/" + "ircache_" + t.hash + "." + ext + ".tmp") + t.suffix;
  }

  /** The pruner's glob for entries: 32 arbitrary characters and an object file extension. */
  predicate EntryPattern(file: string) {
    var n := |"ircache_"|;
    && |file| > n + HASH_LENGTH && file[..n] == "ircache_"
    && file[n + HASH_LENGTH..] in [".o", ".obj"]
  }

  /** The glob for temporary files: behind an entry name, `.tmp` and 7 arbitrary characters. */
  predicate TempPattern(file: string) {
    var m := |file| - 4 - SUFFIX_LENGTH;
    m >= 0 && EntryPattern(file[..m]) && file[m..m + 4] == ".tmp"
  }

  /** The path names, spelled out. */
  lemma NamesSpelled(dir: string, ext: string, h: string, suffix: string, o: Path)
    ensures PathOf(dir, ext, EntryName(h)) == dir + "/ircache_" + h + "." + ext
    ensures PathOf(dir, ext, TemporaryName(TempName(h, suffix))) == dir + "/ircache_" + h + "." + ext + ".tmp" + suffix
    ensures PathOf(dir, ext, OutputName(o)) == o
  {
    assert "/" + "ircache_" == "/ircache_";
    assert dir + "/" + ("ircache_" + h + "." + ext) == dir + "/ircache_" + h + "." + ext;
    assert dir + "/" + ("ircache_" + h + "." + ext + ".tmp" + suffix) == dir + "/ircache_" + h + "." + ext + ".tmp" + suffix;
  }

  /** For the two object file extensions the pruner's patterns match exactly the names the cache gives out: 32 characters
      for the hash, and 7 for the unique part of a temporary name. */
  lemma PatternsExact(file: string)
    ensures EntryPattern(file) <==>
      exists h: string, ext :: |h| == 32 && ext in ["o", "obj"] && file == "ircache_" + h + "." + ext
    ensures TempPattern(file) <==>
      exists h: string, suffix: string, ext ::
        |h| == 32 && |suffix| == 7 && ext in ["o", "obj"] && file == "ircache_" + h + "." + ext + ".tmp" + suffix
  {
    EntryPatternExact(file);
    if h: string, ext :| |h| == 32 && ext in ["o", "obj"] && file == "ircache_" + h + "." + ext {
      assert file == EntryFile(h, ext);
    }
    if TempPattern(file) {
      TempMatched(file);
    }
    if h: string, suffix: string, ext :|
        |h| == 32 && |suffix| == 7 && ext in ["o", "obj"] && file == "ircache_" + h + "." + ext + ".tmp" + suffix {
      TempMatches(file, h, suffix, ext);
    }
  }

  lemma TempMatched(file: string)
    requires TempPattern(file)
    ensures exists h: string, suffix: string, ext ::
      |h| == 32 && |suffix| == 7 && ext in ["o", "obj"] && file == "ircache_" + h + "." + ext + ".tmp" + suffix
  {
    var m := |file| - 4 - SUFFIX_LENGTH;
    EntryPatternExact(file[..m]);
    var h, ext :| |h| == HASH_LENGTH && ext in ["o", "obj"] && file[..m] == EntryFile(h, ext);
    var suffix := file[m + 4..];
    assert file == file[..m] + file[m..m + 4] + suffix;
    assert |h| == 32 && |suffix| == 7 && file == "ircache_" + h + "." + ext + ".tmp" + suffix;
  }

  lemma TempMatches(file: string, h: string, suffix: string, ext: string)
    requires |h| == 32 && |suffix| == 7 && ext in ["o", "obj"] && file == "ircache_" + h + "." + ext + ".tmp" + suffix
    ensures TempPattern(file)
  {
    var m := |file| - 4 - SUFFIX_LENGTH;
    assert file[..m] == EntryFile(h, ext) && file[m..m + 4] == ".tmp";
    EntryPatternExact(file[..m]);
  }

  lemma EntryPatternExact(file: string)
    ensures EntryPattern(file) <==>
      exists h, ext :: |h| == HASH_LENGTH && ext in ["o", "obj"] && file == EntryFile(h, ext)
  {
    var n := |"ircache_"|;
    if EntryPattern(file) {
      var h, ext := file[n..n + HASH_LENGTH], file[n + HASH_LENGTH + 1..];
      assert file == file[..n] + h + file[n + HASH_LENGTH..];
      assert file[n + HASH_LENGTH..] == "." + ext;
      assert ext == "o" || ext == "obj";
      assert file == EntryFile(h, ext);
    }
    if h, ext :| |h| == HASH_LENGTH && ext in ["o", "obj"] && file == EntryFile(h, ext) {
      EntryMatches(h, ext);
    }
  }

  lemma EntryMatches(h: string, ext: string)
    requires |h| == HASH_LENGTH && ext in ["o", "obj"]
    ensures EntryPattern(EntryFile(h, ext))
  {
    var file, n := EntryFile(h, ext), |"ircache_"|;
    assert file[n + HASH_LENGTH..] == "." + ext == if ext == "o" then ".o" else ".obj";
    assert file[..n] == "ircache_";
  }
}
