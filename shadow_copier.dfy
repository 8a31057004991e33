/**
 * "Shadow copying" a running program's binaries: every assembly the program
 * references, directly or not, is loaded first; then every top-level file of
 * the program's directory is moved into the `_shadow` subdirectory (where the
 * running process keeps using it) and copied back, so that the copies at the
 * original location are not held open and can be replaced while the program
 * runs.
 */
module ShadowCopier {

  type Name = string
  type FileName = string
  type Content = seq<bv8>

  datatype Option<T> = None | Some(value: T)

  /** The named assembly could not be loaded. */
  datatype LoadError = LoadFailed(name: Name)

  datatype Outcome<E> = Pass | Fail(error: E)

  // ---------------------------------------------------------------------------
  // Preloading referenced assemblies
  //
  // The program's assemblies are given as a map from each loadable assembly's
  // name to the names it references; loading a name that is not a key fails.
  // ---------------------------------------------------------------------------

  type References = map<Name, seq<Name>>

  /** Every name some loadable assembly references. */
  ghost function Referenced(refs: References): set<Name>
  {
    set a, n | a in refs && n in refs[a] :: n
  }

  /** `p` is a chain of references that starts at one of `from`'s references. */
  ghost predicate IsPath(refs: References, from: Name, p: seq<Name>)
  {
    && |p| > 0
    && from in refs
    && p[0] in refs[from]
    && forall i :: 0 <= i < |p| - 1 ==> p[i] in refs && p[i + 1] in refs[p[i]]
  }

  /** `n` is reached from `from` by following one or more references. */
  ghost predicate Reachable(refs: References, from: Name, n: Name)
  {
    exists p :: IsPath(refs, from, p) && p[|p| - 1] == n
  }

  /** No name occurs twice in `s`. */
  predicate Distinct(s: seq<Name>)
  {
    forall i, j :: 0 <= i < j < |s| ==> s[i] != s[j]
  }

  lemma DistinctAppend(a: seq<Name>, b: seq<Name>)
    requires Distinct(a) && Distinct(b)
    requires forall n :: n in b ==> n !in a
    ensures Distinct(a + b)
  {
    forall i, j | 0 <= i < j < |a + b|
      ensures (a + b)[i] != (a + b)[j]
    {
      if i < |a| && j >= |a| {
        assert (a + b)[j] == b[j - |a|] && b[j - |a|] in b;
      }
    }
  }

  /**
   * Each name newly put into the loaded set (those of `after` that are not in
   * `before`) can itself be loaded and has all its references in `after`.
   */
  ghost predicate ClosedOver(refs: References, before: set<Name>, after: set<Name>)
  {
    forall n :: n in after && n !in before ==> n in refs && forall m :: m in refs[n] ==> m in after
  }

  lemma ReachableStep(refs: References, from: Name, via: Name, n: Name)
    requires from in refs && via in refs[from]
    requires Reachable(refs, via, n)
    ensures Reachable(refs, from, n)
  {
    var p :| IsPath(refs, via, p) && p[|p| - 1] == n;
    var q := [via] + p;
    assert IsPath(refs, from, q) && q[|q| - 1] == n;
  }

  lemma ReachableDirect(refs: References, from: Name, n: Name)
    requires from in refs && n in refs[from]
    ensures Reachable(refs, from, n)
  {
    assert IsPath(refs, from, [n]);
  }

  /** An assembly that references nothing reaches nothing. */
  lemma NothingReachable(refs: References, from: Name)
    requires from in refs && refs[from] == []
    ensures forall n :: !Reachable(refs, from, n)
  {
  }

  lemma {:induction false} PathInClosedSet(refs: References, from: Name, p: seq<Name>, s: set<Name>, k: nat)
    requires IsPath(refs, from, p) && k < |p|
    requires forall m :: m in refs[from] ==> m in s
    requires ClosedOver(refs, {}, s)
    ensures p[k] in s
  {
    if k > 0 {
      PathInClosedSet(refs, from, p, s, k - 1);
    }
  }

  /**
   * A set that holds the root's references and is closed under references
   * holds everything reachable from the root.
   */
  lemma ClosedSetHoldsReachable(refs: References, from: Name, s: set<Name>, n: Name)
    requires from in refs
    requires forall m :: m in refs[from] ==> m in s
    requires ClosedOver(refs, {}, s)
    requires Reachable(refs, from, n)
    ensures n in s
  {
    var p :| IsPath(refs, from, p) && p[|p| - 1] == n;
    PathInClosedSet(refs, from, p, s, |p| - 1);
  }

  /**
   * Loads every assembly referenced by `assembly`, and recursively theirs,
   * skipping names already in `loaded`; a name is added to the loaded set just
   * before it is loaded. Returns the grown set and the names added to it, in
   * the order they were added.
   * A name that cannot be loaded ends the walk with that error.
   */
  method PreloadFrom(refs: References, assembly: Name, loaded: set<Name>)
    returns (loaded': set<Name>, loadOrder: seq<Name>, outcome: Outcome<LoadError>)
    requires assembly in refs
    ensures loaded <= loaded'
    ensures Distinct(loadOrder) && forall n :: n in loadOrder <==> n in loaded' && n !in loaded
    ensures forall n :: n in loaded' && n !in loaded ==> Reachable(refs, assembly, n)
    ensures outcome.Pass? ==> forall m :: m in refs[assembly] ==> m in loaded'
    ensures outcome.Pass? ==> ClosedOver(refs, loaded, loaded')
    ensures outcome.Fail? ==>
      outcome.error.name in loaded' && outcome.error.name !in loaded && outcome.error.name !in refs
    decreases Referenced(refs) - loaded
  {
    loaded', loadOrder, outcome := loaded, [], Pass;
    var references := refs[assembly];
    var i := 0;
    while i < |references|
      invariant 0 <= i <= |references|
      invariant loaded <= loaded'
      invariant Distinct(loadOrder) && forall n :: n in loadOrder <==> n in loaded' && n !in loaded
      invariant forall n :: n in loaded' && n !in loaded ==> Reachable(refs, assembly, n)
      invariant forall k :: 0 <= k < i ==> references[k] in loaded'
      invariant ClosedOver(refs, loaded, loaded')
    {
      var name := references[i];
      if name !in loaded' {
        ReachableDirect(refs, assembly, name);
        loaded' := loaded' + {name};
        loadOrder := loadOrder + [name];
        if name !in refs {
          return loaded', loadOrder, Fail(LoadFailed(name));
        }
        assert name in Referenced(refs);
        var inner, innerOrder, innerOutcome := PreloadFrom(refs, name, loaded');
        forall n | n in inner && n !in loaded'
          ensures Reachable(refs, assembly, n)
        {
          ReachableStep(refs, assembly, name, n);
        }
        DistinctAppend(loadOrder, innerOrder);
        loaded', loadOrder := inner, loadOrder + innerOrder;
        if innerOutcome.Fail? {
          return loaded', loadOrder, innerOutcome;
        }
      }
      i := i + 1;
    }
  }

  /**
   * Loads everything the calling assembly `root` references, directly or
   * through other assemblies, starting from an empty loaded set. The walk
   * succeeds exactly when every reachable name can be loaded; it then loads
   * exactly the reachable names, each once.
   */
  method PreloadReferencedAssemblies(refs: References, root: Name)
    returns (loaded: set<Name>, loadOrder: seq<Name>, outcome: Outcome<LoadError>)
    requires root in refs
    ensures Distinct(loadOrder) && forall n :: n in loadOrder <==> n in loaded
    ensures outcome.Pass? <==> forall n :: Reachable(refs, root, n) ==> n in refs
    ensures outcome.Pass? ==> forall n :: n in loaded <==> Reachable(refs, root, n)
    ensures outcome.Fail? ==>
      outcome.error.name in loaded && outcome.error.name !in refs && Reachable(refs, root, outcome.error.name)
    ensures forall n :: n in loaded ==> Reachable(refs, root, n)
  {
    loaded, loadOrder, outcome := PreloadFrom(refs, root, {});
    if outcome.Pass? {
      forall n | Reachable(refs, root, n)
        ensures n in loaded && n in refs
      {
        ClosedSetHoldsReachable(refs, root, loaded, n);
      }
    }
  }

  // ---------------------------------------------------------------------------
  // Relocating the program's files
  // ---------------------------------------------------------------------------

  /** The fixed name of the shadow subdirectory. */
  const ShadowDirName: FileName := "_shadow"

  /** A directory path, as the sequence of its segments. */
  type Path = seq<string>

  /** The shadow directory of a program directory: its `_shadow` child. */
  function ShadowDirectory(originalDir: Path): (p: Path)
    ensures |p| == |originalDir| + 1
    ensures p[..|originalDir|] == originalDir && p[|originalDir|] == "_shadow"
  {
    originalDir + [ShadowDirName]
  }

  /**
   * Distinct program directories have distinct shadow directories, and a
   * shadow directory is never the program directory itself, so clearing it
   * never clears the program's own files.
   */
  lemma ShadowDirectoryDistinct(a: Path, b: Path)
    ensures ShadowDirectory(a) == ShadowDirectory(b) ==> a == b
    ensures ShadowDirectory(a) != a
  {
    if ShadowDirectory(a) == ShadowDirectory(b) {
      assert a == ShadowDirectory(a)[..|a|] == ShadowDirectory(b)[..|b|] == b;
    }
    assert |ShadowDirectory(a)| != |a|;
  }

  /**
   * A file: its bytes, and whether the running process has it open (an
   * assembly it loaded), which is what keeps it from being replaced.
   */
  datatype File = File(content: Content, inUse: bool)

  /** The files of a directory as fresh copies nobody holds open. */
  function FreshCopies(files: map<FileName, File>): (r: map<FileName, File>)
    ensures r.Keys == files.Keys
    ensures forall n :: n in r ==> r[n].content == files[n].content && !r[n].inUse
  {
    map n | n in files :: File(files[n].content, false)
  }

  /** No file of the directory is held open. */
  predicate NoneInUse(files: map<FileName, File>)
  {
    forall n :: n in files ==> !files[n].inUse
  }

  /**
   * The files of a directory as a newly started process finds them after
   * opening those named in `opens`.
   */
  function OpenedBy(files: map<FileName, File>, opens: set<FileName>): (r: map<FileName, File>)
    ensures r.Keys == files.Keys
    ensures forall n :: n in r ==> r[n].content == files[n].content && (r[n].inUse <==> n in opens)
  {
    map n | n in files :: File(files[n].content, n in opens)
  }

  /**
   * The files of a directory after the process also opens those named in
   * `opens`; files it already had open stay open.
   */
  function AlsoOpened(files: map<FileName, File>, opens: set<FileName>): (r: map<FileName, File>)
    ensures r.Keys == files.Keys
    ensures forall n :: n in r ==> r[n].content == files[n].content && (r[n].inUse <==> files[n].inUse || n in opens)
  {
    map n | n in files :: File(files[n].content, files[n].inUse || n in opens)
  }

  /** The file each assembly is loaded from, for the assemblies whose file is in the program directory. */
  type AssemblyFiles = map<Name, FileName>

  /** The files that loading the loadable assemblies among `names` opens. */
  function FilesOf(assemblyFiles: AssemblyFiles, refs: References, names: set<Name>): (r: set<FileName>)
    ensures forall a :: a in names && a in refs && a in assemblyFiles ==> assemblyFiles[a] in r
    ensures forall f :: f in r ==> exists a :: a in names && a in refs && a in assemblyFiles && assemblyFiles[a] == f
  {
    set a | a in names && a in refs && a in assemblyFiles :: assemblyFiles[a]
  }

  /** The contents of a directory's files, by name. */
  function Contents(files: map<FileName, File>): (r: map<FileName, Content>)
    ensures r.Keys == files.Keys
    ensures forall n :: n in r ==> r[n] == files[n].content
  {
    map n | n in files :: files[n].content
  }

  datatype RelocationError =
    | PreloadFailed(load: LoadError)
      // a file called `_shadow` stops the shadow directory from being created
    | ShadowNameTaken
      // the existing shadow directory holds a file the process has open, so it cannot be deleted
    | ShadowInUse

  /**
   * The directory at `path` holding the program's files: its top-level
   * files, its other subdirectories (never touched) and, when it exists, the
   * files of the shadow directory, the one at `ShadowDirectory(path)`.
   * `processAssemblies` are the assemblies the running process has loaded
   * besides the calling one; loading one of them again opens no file.
   */
  class ProgramDirectory {
    const path: Path
    var files: map<FileName, File>
    var subdirectories: set<FileName>
    var shadow: Option<map<FileName, File>>
    var processAssemblies: set<Name>

    ghost predicate Valid()
      reads this
    {
      && files.Keys !! subdirectories
      && ShadowDirName !in subdirectories
      && (ShadowDirName in files ==> shadow.None?)
    }

    constructor (path: Path, files: map<FileName, File>, subdirectories: set<FileName>, shadow: Option<map<FileName, File>>)
      requires files.Keys !! subdirectories && ShadowDirName !in subdirectories
      requires ShadowDirName in files ==> shadow.None?
      ensures Valid()
      ensures this.path == path && this.files == files
      ensures this.subdirectories == subdirectories && this.shadow == shadow
      ensures processAssemblies == {}
    {
      this.path := path;
      this.files := files;
      this.subdirectories := subdirectories;
      this.shadow := shadow;
      this.processAssemblies := {};
    }

    /**
     * Deletes the shadow directory and everything in it. A file the process
     * holds open cannot be deleted: then nothing is deleted and `deleted` is false.
     */
    method DeleteShadow() returns (deleted: bool)
      requires shadow.Some?
      modifies this
      ensures deleted <==> NoneInUse(old(shadow).value)
      ensures shadow == if deleted then None else old(shadow)
      ensures files == old(files) && subdirectories == old(subdirectories)
      ensures processAssemblies == old(processAssemblies)
    {
      deleted := forall n :: n in shadow.value ==> !shadow.value[n].inUse;
      if deleted {
        shadow := None;
      }
    }

    /**
     * The process loads the assemblies `names`: those it had not loaded
     * before open their files, which it holds open from then on.
     */
    method LoadAssemblies(refs: References, assemblyFiles: AssemblyFiles, names: set<Name>)
      modifies this
      ensures files == AlsoOpened(old(files), FilesOf(assemblyFiles, refs, names - old(processAssemblies)))
      ensures processAssemblies == old(processAssemblies) + (names * refs.Keys)
      ensures shadow == old(shadow) && subdirectories == old(subdirectories)
    {
      files := AlsoOpened(files, FilesOf(assemblyFiles, refs, names - processAssemblies));
      processAssemblies := processAssemblies + (names * refs.Keys);
    }

    /** Creates the shadow directory; an existing one is left as it is. */
    method CreateShadow()
      requires ShadowDirName !in files
      modifies this
      ensures shadow == if old(shadow).None? then Some(map[]) else old(shadow)
      ensures files == old(files) && subdirectories == old(subdirectories)
      ensures processAssemblies == old(processAssemblies)
    {
      if shadow.None? {
        shadow := Some(map[]);
      }
    }

    /** Moves the top-level file `name` into the shadow directory, under the same name. */
    method MoveToShadow(name: FileName)
      requires shadow.Some? && name in files && name !in shadow.value
      modifies this
      ensures files == old(files) - {name}
      ensures shadow == Some(old(shadow).value[name := old(files)[name]])
      ensures subdirectories == old(subdirectories) && processAssemblies == old(processAssemblies)
    {
      shadow := Some(shadow.value[name := files[name]]);
      files := files - {name};
    }

    /** Copies the shadow file `name` back to the top level, as a new file. */
    method CopyFromShadow(name: FileName)
      requires shadow.Some? && name in shadow.value
      requires name !in files && name !in subdirectories && name != ShadowDirName
      modifies this
      ensures files == old(files)[name := File(old(shadow).value[name].content, false)]
      ensures shadow == old(shadow) && subdirectories == old(subdirectories)
      ensures processAssemblies == old(processAssemblies)
    {
      files := files[name := File(shadow.value[name].content, false)];
    }

    /** Moves every top-level file into the empty shadow directory. */
    method MoveAllToShadow()
      requires shadow == Some(map[])
      modifies this
      ensures shadow == Some(old(files)) && files == map[]
      ensures subdirectories == old(subdirectories) && processAssemblies == old(processAssemblies)
    {
      var toMove := files.Keys;
      while toMove != {}
        invariant toMove == files.Keys
        invariant forall n :: n in files ==> n in old(files) && files[n] == old(files)[n]
        invariant shadow.Some? && shadow.value.Keys == old(files).Keys - toMove
        invariant forall n :: n in shadow.value ==> shadow.value[n] == old(files)[n]
        invariant subdirectories == old(subdirectories) && processAssemblies == old(processAssemblies)
        decreases toMove
      {
        var name :| name in toMove;
        MoveToShadow(name);
        toMove := toMove - {name};
      }
      assert shadow.value == old(files);
    }

    /** Copies every shadow file back to the emptied top level, as fresh copies. */
    method CopyAllBack()
      requires shadow.Some? && files == map[]
      requires shadow.value.Keys !! subdirectories && ShadowDirName !in shadow.value
      modifies this
      ensures files == FreshCopies(old(shadow).value)
      ensures shadow == old(shadow)
      ensures subdirectories == old(subdirectories) && processAssemblies == old(processAssemblies)
    {
      var toCopy := shadow.value.Keys;
      while toCopy != {}
        invariant shadow == old(shadow)
        invariant toCopy <= shadow.value.Keys
        invariant files.Keys == shadow.value.Keys - toCopy
        invariant forall n :: n in files ==> files[n] == File(shadow.value[n].content, false)
        invariant subdirectories == old(subdirectories) && processAssemblies == old(processAssemblies)
        decreases toCopy
      {
        var name :| name in toCopy;
        CopyFromShadow(name);
        toCopy := toCopy - {name};
      }
    }

    /**
     * Preloads the assemblies `root` references, clears and recreates the
     * shadow directory, moves every top-level file into it and copies each
     * one back. Loading an assembly opens its file (`assemblyFiles` says
     * which). Afterwards the shadow directory holds the original files,
     * including every one the process has open, and the top level holds
     * fresh copies with the same names and contents; subdirectories are
     * untouched. A failure leaves every file where it was, though the
     * assemblies loaded before it stay loaded.
     */
    method ShadowCopy(refs: References, root: Name, assemblyFiles: AssemblyFiles)
      returns (loaded: set<Name>, outcome: Outcome<RelocationError>)
      requires Valid()
      requires root in refs
      modifies this
      ensures Valid()
      ensures forall n :: n in loaded ==> Reachable(refs, root, n)
      ensures outcome.Pass? <==>
        && (forall n :: Reachable(refs, root, n) ==> n in refs)
        && (old(shadow).Some? ==> NoneInUse(old(shadow).value))
        && ShadowDirName !in old(files)
      ensures (outcome.Fail? && outcome.error.PreloadFailed?) <==>
        !(forall n :: Reachable(refs, root, n) ==> n in refs)
      ensures outcome.Fail? && outcome.error.PreloadFailed? ==>
        outcome.error.load.name !in refs && Reachable(refs, root, outcome.error.load.name)
      ensures outcome == Fail(ShadowInUse) <==>
        && (forall n :: Reachable(refs, root, n) ==> n in refs)
        && old(shadow).Some? && !NoneInUse(old(shadow).value)
      ensures outcome == Fail(ShadowNameTaken) <==>
        (forall n :: Reachable(refs, root, n) ==> n in refs) && ShadowDirName in old(files)
      ensures outcome.Pass? ==> forall n :: n in loaded <==> Reachable(refs, root, n)
      ensures outcome.Pass? ==>
        && shadow == Some(AlsoOpened(old(files), FilesOf(assemblyFiles, refs, loaded - old(processAssemblies))))
        && files == FreshCopies(old(files))
      ensures outcome.Fail? ==>
        files == AlsoOpened(old(files), FilesOf(assemblyFiles, refs, loaded - old(processAssemblies)))
        && shadow == old(shadow)
      ensures processAssemblies == old(processAssemblies) + (loaded * refs.Keys)
      ensures subdirectories == old(subdirectories)
    {
      var loadOrder, preload;
      loaded, loadOrder, preload := PreloadReferencedAssemblies(refs, root);
      LoadAssemblies(refs, assemblyFiles, loaded);
      if preload.Fail? {
        return loaded, Fail(PreloadFailed(preload.error));
      }
      if shadow.Some? {
        var deleted := DeleteShadow();
        if !deleted {
          return loaded, Fail(ShadowInUse);
        }
      }
      if ShadowDirName in files {
        return loaded, Fail(ShadowNameTaken);
      }
      CreateShadow();
      MoveAllToShadow();
      CopyAllBack();
      outcome := Pass;
    }

    /**
     * The program exits and is started again: every file the old process
     * had open is released, and the new process opens the top-level files
     * named in `opens` (its own binaries), having loaded no other assembly yet.
     */
    method Restart(opens: set<FileName>)
      modifies this
      ensures files == OpenedBy(old(files), opens) && processAssemblies == {}
      ensures shadow == if old(shadow).None? then None else Some(FreshCopies(old(shadow).value))
      ensures subdirectories == old(subdirectories)
    {
      files := OpenedBy(files, opens);
      processAssemblies := {};
      if shadow.Some? {
        shadow := Some(FreshCopies(shadow.value));
      }
    }
  }

  /**
   * Relocating, restarting, and relocating again succeeds both times: the
   * second run clears the shadow directory the first one left, which the
   * restart released. Both directories end up with the original names and
   * contents; the top-level copies are free, and the shadow holds open
   * exactly the files the restarted process opened at start-up and the
   * files of the assemblies the second run preloaded.
   */
  method RelocateRestartRelocate(dir: ProgramDirectory, refs: References, root: Name,
                                 assemblyFiles: AssemblyFiles, opens: set<FileName>)
    returns (first: Outcome<RelocationError>, second: Outcome<RelocationError>, loaded: set<Name>)
    requires dir.Valid() && root in refs
    requires forall n :: Reachable(refs, root, n) ==> n in refs
    requires ShadowDirName !in dir.files
    requires dir.shadow.Some? ==> NoneInUse(dir.shadow.value)
    modifies dir
    ensures first.Pass? && second.Pass?
    ensures forall n :: n in loaded <==> Reachable(refs, root, n)
    ensures dir.Valid()
    ensures Contents(dir.files) == Contents(old(dir.files)) && NoneInUse(dir.files)
    ensures dir.shadow.Some? && Contents(dir.shadow.value) == Contents(old(dir.files))
    ensures forall n :: n in dir.shadow.value ==>
      (dir.shadow.value[n].inUse <==> n in opens || n in FilesOf(assemblyFiles, refs, loaded))
  {
    var loaded1;
    loaded1, first := dir.ShadowCopy(refs, root, assemblyFiles);
    dir.Restart(opens);
    loaded, second := dir.ShadowCopy(refs, root, assemblyFiles);
  }

  /**
   * Relocating a second time without a restart fails when the first run
   * moved a file the process has open into the shadow directory: one it
   * had open from the start, or the file of an assembly it preloaded. That
   * file cannot be deleted, and the second run moves nothing.
   */
  method RelocateTwiceWithoutRestart(dir: ProgramDirectory, refs: References, root: Name,
                                     assemblyFiles: AssemblyFiles, held: FileName)
    returns (first: Outcome<RelocationError>, second: Outcome<RelocationError>, loaded: set<Name>)
    requires dir.Valid() && root in refs
    requires forall n :: Reachable(refs, root, n) ==> n in refs
    requires ShadowDirName !in dir.files
    requires dir.shadow.Some? ==> NoneInUse(dir.shadow.value)
    requires held in dir.files
    requires dir.files[held].inUse ||
      exists a :: Reachable(refs, root, a) && a !in dir.processAssemblies && a in assemblyFiles && assemblyFiles[a] == held
    modifies dir
    ensures first.Pass? && second == Fail(ShadowInUse)
    ensures forall n :: n in loaded <==> Reachable(refs, root, n)
    ensures dir.shadow == Some(AlsoOpened(old(dir.files), FilesOf(assemblyFiles, refs, loaded - old(dir.processAssemblies))))
    ensures Contents(dir.files) == Contents(old(dir.files)) && NoneInUse(dir.files)
  {
    var loaded2;
    loaded, first := dir.ShadowCopy(refs, root, assemblyFiles);
    assert dir.shadow.value[held].inUse;
    loaded2, second := dir.ShadowCopy(refs, root, assemblyFiles);
    assert FilesOf(assemblyFiles, refs, loaded2 - dir.processAssemblies) == {} by {
      assert loaded2 - old(dir.processAssemblies) - (loaded * refs.Keys) <= loaded2 - refs.Keys;
    }
  }
}

module ShadowCopierExample {
  import opened ShadowCopier

  /**
   * A program directory holding `app.bin` (3 bytes, the running program's
   * own binary, which it holds open) and `lib.dat` (3 bytes), where the
   * program references no other assembly: after relocation `_shadow` holds
   * both files as they were and the top level holds copies with the same
   * bytes that nothing has open.
   */
  method RelocateAppAndLib() returns (dir: ProgramDirectory)
    ensures dir.shadow == Some(map["app.bin" := File([0x4D, 0x5A, 0x90], true), "lib.dat" := File([1, 2, 3], false)])
    ensures Contents(dir.files) == Contents(dir.shadow.value)
    ensures NoneInUse(dir.files)
  {
    var app := File([0x4D, 0x5A, 0x90], true);
    var lib := File([1, 2, 3], false);
    var files := map["app.bin" := app, "lib.dat" := lib];
    dir := new ProgramDirectory(["opt", "tool"], files, {}, None);
    var refs: References := map["tool" := []];
    NothingReachable(refs, "tool");
    var loaded, outcome := dir.ShadowCopy(refs, "tool", map[]);
    assert outcome.Pass?;
    assert dir.shadow == Some(files) by {
      assert FilesOf(map[], refs, loaded - {}) == {};
      assert AlsoOpened(files, {}) == files;
    }
    assert dir.files == FreshCopies(files);
  }
}
