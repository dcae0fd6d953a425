/** `rename` and `main` of source/hash_rename.py, the variant without case
    conversion. As written, the loop body digests and renames the `path`
    argument, and takes the parent directory from it, where it evidently
    means the yielded file `i`: `RenameAsWritten` models the code as it
    stands and the lemmas below show where it goes wrong; `Target`,
    `RenameOf` and the methods model the intended behaviour. */
module SourceHashRename {
  import opened Py
  import opened PyText
  import opened FsTree
  import opened Digest
  import SourceFilter
  import ScriptsFilter
  import opened ScriptHashRename

  /** The arguments of `rename` besides `path`; `quiet` only silences the
      report line and is left out. */
  datatype SourceOptions = SourceOptions(
    includes: Option<seq<string>>,
    excludes: Option<seq<string>>,
    prefix: Option<string>,
    dropSuffix: bool,
    flatten: bool,
    algorithm: string)

  /** The algorithm this generation's `hexdigest` hashes with: a name it
      does not know falls back to sha256, as the `--algorithm` help says,
      where the scripts generation raises `ValueError`. */
  function SourceAlgorithm(name: string): (a: Algorithm)
    ensures AlgorithmOf(name).Ok? ==> a == AlgorithmOf(name).value
    ensures AlgorithmOf(name).Err? ==> a == Sha256
  {
    match AlgorithmOf(name)
    case Ok(a) => a
    case Err(_) => Sha256
  }

  /** `hexdigest(path, algorithm)` of this generation: `open(path, 'rb')`
      fails on a directory or a missing path, and a file is hashed with
      `SourceAlgorithm(algorithm)`. */
  function SourceDigest(root: Node, p: RelPath, algorithm: string, hash: Hasher): (r: Result<string>)
    ensures r.Ok? <==> IsFile(root, p)
    ensures r.Ok? ==> r.value == hash(SourceAlgorithm(algorithm), p)
    ensures Lookup(root, p) == None ==> r == Err(FileNotFoundError(PathText(p)))
    ensures Lookup(root, p).Some? && Lookup(root, p).value.Dir? ==> r == Err(IsADirectoryError(PathText(p)))
  {
    match Lookup(root, p)
    case None => Err(FileNotFoundError(PathText(p)))
    case Some(Dir(_)) => Err(IsADirectoryError(PathText(p)))
    case Some(File(_)) => Ok(hash(SourceAlgorithm(algorithm), p))
  }

  /** For a name both generations know, the two digests agree. */
  lemma SourceDigestAgrees(root: Node, p: RelPath, algorithm: string, hash: Hasher)
    requires AlgorithmOf(algorithm).Ok?
    ensures SourceDigest(root, p, algorithm, hash) == HexDigest(root, p, algorithm, hash)
  {
    assert SourceAlgorithm(algorithm) == AlgorithmOf(algorithm).value;
    match Lookup(root, p) {
      case None =>
      case Some(Dir(_)) =>
      case Some(File(_)) =>
    }
  }

  /** A name the scripts generation rejects selects here what `sha256`
      selects. */
  lemma UnknownNameIsSha256(name: string)
    requires AlgorithmOf(name).Err?
    ensures SourceAlgorithm(name) == SourceAlgorithm("sha256") == Sha256
  {
    Sha256Known();
  }

  /** One pass of the loop as written, for the argument `p` and the yielded
      file `i`: only the suffix comes from `i`. */
  function TargetAsWritten(root: Node, p: RelPath, i: RelPath, o: SourceOptions, hash: Hasher): (r: Result<Move>)
    ensures r.Ok? <==> IsFile(root, p)
    ensures r.Ok? ==> r.value.source == p
    ensures i == p ==> r == Target(root, i, o, hash)
  {
    var d :- SourceDigest(root, p, o.algorithm, hash);
    Ok(Move(p, TargetDir(p, o.flatten), PrefixText(o.prefix) + d + SuffixText(i, o.dropSuffix)))
  }

  function TargetsAsWritten(root: Node, p: RelPath, files: seq<RelPath>, o: SourceOptions, hash: Hasher)
    : (ts: seq<Result<Move>>)
    ensures |ts| == |files|
    ensures forall k :: 0 <= k < |files| ==> ts[k] == TargetAsWritten(root, p, files[k], o, hash)
  {
    seq(|files|, k requires 0 <= k < |files| => TargetAsWritten(root, p, files[k], o, hash))
  }

  /** `rename(path, ...)` as written. */
  function RenameAsWritten(root: Node, path: PathArg, o: SourceOptions, hash: Hasher): (r: Outcome)
    ensures forall k :: 0 <= k < |r.moves| ==> r.moves[k].source == ToPath(path)
    ensures !IsFile(root, ToPath(path)) ==> r.moves == []
  {
    var files := SourceFilter.Selected(root, path, o.includes, o.excludes, false);
    var ts := TargetsAsWritten(root, ToPath(path), files, o, hash);
    UntilInOrder(ts);
    Until(ts)
  }

  /** One pass of the loop as intended: the yielded file is digested and
      renamed inside its own directory. */
  function Target(root: Node, i: RelPath, o: SourceOptions, hash: Hasher): Result<Move> {
    var d :- SourceDigest(root, i, o.algorithm, hash);
    Ok(Move(i, TargetDir(i, o.flatten), PrefixText(o.prefix) + d + SuffixText(i, o.dropSuffix)))
  }

  function Targets(root: Node, files: seq<RelPath>, o: SourceOptions, hash: Hasher): (ts: seq<Result<Move>>)
    ensures |ts| == |files|
    ensures forall k :: 0 <= k < |files| ==> ts[k] == Target(root, files[k], o, hash)
  {
    seq(|files|, k requires 0 <= k < |files| => Target(root, files[k], o, hash))
  }

  /** `rename(path, ...)` as intended. */
  function RenameOf(root: Node, path: PathArg, o: SourceOptions, hash: Hasher): Outcome {
    Until(Targets(root, SourceFilter.Selected(root, path, o.includes, o.excludes, false), o, hash))
  }

  /** `rename`, as intended, step by step as the loop runs. */
  method Rename(root: Node, path: PathArg, o: SourceOptions, hash: Hasher) returns (r: Outcome)
    ensures r == RenameOf(root, path, o, hash)
  {
    var prefix := if o.prefix.None? then "" else o.prefix.value;
    var files := SourceFilter.Filter(root, path, o.includes, o.excludes, false);
    ghost var ts := Targets(root, files, o, hash);
    var moves: seq<Move> := [];
    ThenNothing(ts, Until(ts));
    for k := 0 to |files|
      invariant Until(ts) == Then(moves, Until(ts[k..]))
    {
      UntilStep(ts, k);
      var t := RenameOne(root, files[k], prefix, o, hash);
      if t.Err? {
        ThenStop(moves, Some(t.error));
        return Outcome(moves, Some(t.error));
      }
      ThenAppend(moves, t.value, Until(ts[k + 1..]));
      moves := moves + [t.value];
    }
    assert ts[|ts|..] == [];
    ThenStop(moves, None);
    return Outcome(moves, None);
  }

  /** The body of the loop for the yielded file `i`. */
  method RenameOne(root: Node, i: RelPath, prefix: string, o: SourceOptions, hash: Hasher) returns (t: Result<Move>)
    requires prefix == PrefixText(o.prefix)
    ensures t == Target(root, i, o, hash)
  {
    var parent := if o.flatten then [] else Parent(i);
    var suffix := if o.dropSuffix then "" else JoinedSuffixes(Name(i));
    var digest := SourceDigest(root, i, o.algorithm, hash);
    if digest.Err? {
      return Err(digest.error);
    }
    return Ok(Move(i, parent, prefix + digest.value + suffix));
  }

  /** The `rename` calls of `main`, one per path, up to the first
      exception. */
  function Runs(root: Node, paths: seq<PathArg>, o: SourceOptions, hash: Hasher): Outcome
    decreases |paths|
  {
    if paths == [] then Outcome([], None)
    else
      var first := RenameOf(root, paths[0], o, hash);
      if first.error.Some? then first
      else Then(first.moves, Runs(root, paths[1..], o, hash))
  }

  /** `main` after argument parsing. */
  method Command(root: Node, args: seq<string>, o: SourceOptions, hash: Hasher) returns (r: Outcome)
    ensures r == Runs(root, PathArgs(args), o, hash)
  {
    var paths := if args == [] then [PathObj([])] else PathArgs(args);
    var moves: seq<Move> := [];
    for k := 0 to |paths|
      invariant Runs(root, paths, o, hash) == Then(moves, Runs(root, paths[k..], o, hash))
    {
      var run := Rename(root, paths[k], o, hash);
      RunsAfter(root, paths, k, o, hash, moves, run);
      if run.error.Some? {
        return Outcome(moves + run.moves, run.error);
      }
      moves := moves + run.moves;
    }
    assert paths[|paths|..] == [];
    return Outcome(moves, None);
  }

  /** What one `rename` call does to the loop invariant of `main`. */
  lemma RunsAfter(root: Node, paths: seq<PathArg>, k: nat, o: SourceOptions, hash: Hasher,
                  moves: seq<Move>, run: Outcome)
    requires k < |paths| && run == RenameOf(root, paths[k], o, hash)
    requires Runs(root, paths, o, hash) == Then(moves, Runs(root, paths[k..], o, hash))
    ensures run.error.Some? ==> Runs(root, paths, o, hash) == Outcome(moves + run.moves, run.error)
    ensures run.error.None? ==>
      Runs(root, paths, o, hash) == Then(moves + run.moves, Runs(root, paths[k + 1..], o, hash))
  {
    RunsStep(root, paths, k, o, hash);
    ThenJoin(moves, run.moves, Runs(root, paths[k + 1..], o, hash));
  }

  /** One more `rename` call over `paths[k..]`. */
  lemma RunsStep(root: Node, paths: seq<PathArg>, k: nat, o: SourceOptions, hash: Hasher)
    requires k < |paths|
    ensures Runs(root, paths[k..], o, hash) ==
      var first := RenameOf(root, paths[k], o, hash);
      if first.error.Some? then first else Then(first.moves, Runs(root, paths[k + 1..], o, hash))
  {
    assert paths[k..][0] == paths[k] && paths[k..][1..] == paths[k + 1..];
  }

  /** Every path the filter yields is a file. */
  lemma SelectedAreFiles(root: Node, path: PathArg, includes: Option<seq<string>>, excludes: Option<seq<string>>)
    ensures forall x :: x in SourceFilter.Selected(root, path, includes, excludes, false) ==> IsFile(root, x)
  {
    SourceFilter.FilterVariantsAgree(root, path, includes, excludes, false);
    ScriptHashRename.SelectedAreFiles(root, path, includes, excludes);
  }

  /** As written, a directory argument with any file to rename fails at
      the first file: the directory itself is opened for hashing, and
      nothing is renamed. */
  lemma DirectoryArgumentFails(root: Node, path: PathArg, o: SourceOptions, hash: Hasher)
    requires Lookup(root, ToPath(path)).Some? && Lookup(root, ToPath(path)).value.Dir?
    requires SourceFilter.Selected(root, path, o.includes, o.excludes, false) != []
    ensures RenameAsWritten(root, path, o, hash) == Outcome([], Some(IsADirectoryError(PathText(ToPath(path)))))
  {
    var files := SourceFilter.Selected(root, path, o.includes, o.excludes, false);
    FirstPassFails(root, ToPath(path), files, o, hash);
  }

  lemma FirstPassFails(root: Node, p: RelPath, files: seq<RelPath>, o: SourceOptions, hash: Hasher)
    requires Lookup(root, p).Some? && Lookup(root, p).value.Dir?
    requires files != []
    ensures Until(TargetsAsWritten(root, p, files, o, hash)) == Outcome([], Some(IsADirectoryError(PathText(p))))
  {
    var ts := TargetsAsWritten(root, p, files, o, hash);
    assert ts[0] == Err(IsADirectoryError(PathText(p)));
  }

  /** As intended, the same call renames every yielded file. */
  lemma DirectoryArgumentRenamesFiles(root: Node, path: PathArg, o: SourceOptions, hash: Hasher)
    ensures var files := SourceFilter.Selected(root, path, o.includes, o.excludes, false);
      var r := RenameOf(root, path, o, hash);
      && r.error == None && |r.moves| == |files|
      && forall k :: 0 <= k < |files| ==> r.moves[k].source == files[k]
  {
    var files := SourceFilter.Selected(root, path, o.includes, o.excludes, false);
    var ts := Targets(root, files, o, hash);
    SelectedAreFiles(root, path, o.includes, o.excludes);
    forall k | 0 <= k < |ts|
      ensures ts[k].Ok? && ts[k].value.source == files[k]
    {
      assert files[k] in files;
    }
    UntilInOrder(ts);
  }

  /** A file argument is the one case the code as written gets right: the
      filter then yields just that file. */
  lemma FileArgumentAgrees(root: Node, path: PathArg, o: SourceOptions, hash: Hasher)
    requires IsFile(root, ToPath(path))
    ensures RenameAsWritten(root, path, o, hash) == RenameOf(root, path, o, hash)
  {
    var p := ToPath(path);
    assert SourceFilter.Selected(root, path, o.includes, o.excludes, false) == [p];
    assert TargetsAsWritten(root, p, [p], o, hash) == Targets(root, [p], o, hash);
  }

  /** A working directory holding one file, called `name`. */
  function OneFileTree(name: string): Node {
    Dir([Entry(name, File(Some("")))])
  }

  /** `rename()` with the default path and `algorithm` selecting sha256, in
      that directory, as written: it fails with `IsADirectoryError` on `.`
      and renames nothing. */
  lemma DefaultPathAsWritten(name: string, algorithm: string, hash: Hasher)
    requires SourceAlgorithm(algorithm) == Sha256
    ensures RenameAsWritten(OneFileTree(name), NoPath, SourceOptions(None, None, None, false, false, algorithm), hash)
      == Outcome([], Some(IsADirectoryError(".")))
  {
    OneFileSelected(name);
    DirectoryArgumentFails(OneFileTree(name), NoPath, SourceOptions(None, None, None, false, false, algorithm), hash);
  }

  /** The same call as intended renames the file to its digest with its
      suffixes kept. */
  lemma DefaultPathIntended(name: string, algorithm: string, hash: Hasher)
    requires SourceAlgorithm(algorithm) == Sha256
    ensures RenameOf(OneFileTree(name), NoPath, SourceOptions(None, None, None, false, false, algorithm), hash)
      == Outcome([Move([name], [], hash(Sha256, [name]) + JoinedSuffixes(name))], None)
  {
    var o := SourceOptions(None, None, None, false, false, algorithm);
    var m := Move([name], [], hash(Sha256, [name]) + JoinedSuffixes(name));
    OneFileSelected(name);
    assert Target(OneFileTree(name), [name], o, hash) == Ok(m) by {
      TargetName(OneFileTree(name), [name], o, hash, Sha256);
      assert Parent([name]) == [];
      assert "" + hash(Sha256, [name]) == hash(Sha256, [name]);
    }
    RenameOfSingle(OneFileTree(name), NoPath, o, hash, [name]);
  }

  /** A `rename` call whose filter yields one file makes that file's move. */
  lemma RenameOfSingle(root: Node, path: PathArg, o: SourceOptions, hash: Hasher, i: RelPath)
    requires SourceFilter.Selected(root, path, o.includes, o.excludes, false) == [i]
    requires Target(root, i, o, hash).Ok?
    ensures RenameOf(root, path, o, hash) == Outcome([Target(root, i, o, hash).value], None)
  {
    var m := Target(root, i, o, hash).value;
    var ts := Targets(root, [i], o, hash);
    assert |ts| == 1 && ts[0] == Ok(m);
    assert ts == [Ok(m)];
    UntilOne(m);
  }

  /** A single pass that succeeds carries out its one move. */
  lemma UntilOne(m: Move)
    ensures Until([Ok(m)]) == Outcome([m], None)
  {
    assert [Ok(m)][1..] == [];
    ThenStop([m], None);
  }

  /** Concretely: `rename()` in a directory holding `a.txt` fails as
      written, and as intended renames `a.txt` to its sha256 digest
      followed by its suffixes. */
  lemma ACounterexample(hash: Hasher)
    ensures var o := SourceOptions(None, None, None, false, false, "sha256");
      && RenameAsWritten(OneFileTree("a.txt"), NoPath, o, hash) == Outcome([], Some(IsADirectoryError(".")))
      && RenameOf(OneFileTree("a.txt"), NoPath, o, hash) ==
         Outcome([Move(["a.txt"], [], hash(Sha256, ["a.txt"]) + JoinedSuffixes("a.txt"))], None)
  {
    Sha256Known();
    DefaultPathAsWritten("a.txt", "sha256", hash);
    DefaultPathIntended("a.txt", "sha256", hash);
  }

  /** The filter, with no include or exclude list, yields the one file of
      that directory. */
  lemma OneFileSelected(name: string)
    ensures Lookup(OneFileTree(name), []).Some? && Lookup(OneFileTree(name), []).value.Dir?
    ensures IsFile(OneFileTree(name), [name])
    ensures SourceFilter.Selected(OneFileTree(name), NoPath, None, None, false) == [[name]]
  {
    var root := OneFileTree(name);
    OneFileListed(name);
    assert ToPath(NoPath) == [] && !IsFile(root, []);
    assert SourceFilter.IncludeTuple(None) == None && SourceFilter.ExcludeTuple(None) == [];
    assert SourceFilter.Keeps(root, [name], None, []);
    KeptOne(root, [name], None, []);
  }

  lemma KeptOne(root: Node, i: RelPath, includes: Option<seq<string>>, excludes: seq<string>)
    requires SourceFilter.Keeps(root, i, includes, excludes)
    ensures SourceFilter.Kept(root, [i], includes, excludes) == [i]
  {
    assert [i][..0] == [];
  }

  /** That directory lists just its one entry, which is a file. */
  lemma OneFileListed(name: string)
    ensures Lookup(OneFileTree(name), []).Some? && Lookup(OneFileTree(name), []).value.Dir?
    ensures IsFile(OneFileTree(name), [name])
    ensures Glob(OneFileTree(name), [], false) == [[name]]
  {
    var root := OneFileTree(name);
    assert Lookup(root, []) == Some(root);
    assert [name][1..] == [];
    assert Lookup(root, [name]) == Some(File(Some("")));
    var listed := Glob(root, [], false);
    assert listed == Children([], root.entries);
    assert |listed| == 1 && listed[0] == [] + [name] == [name];
  }

  /** The default algorithm name, `sha256`, selects sha256. */
  lemma Sha256Known()
    ensures AlgorithmOf("sha256") == Ok(Sha256)
  {
    Sha256Stripped();
    Sha256Lowered();
    assert Lower(Strip("sha256")) == "sha256";
  }

  lemma Sha256Stripped()
    ensures Strip("sha256") == "sha256"
  {
    var s := "sha256";
    assert !IsSpace(s[0]) && !IsSpace(s[|s| - 1]);
    StripKeeps(s);
  }

  lemma Sha256Lowered()
    ensures Lower("sha256") == "sha256"
  {
    var s := "sha256";
    assert forall k :: 0 <= k < |s| ==> !('A' <= s[k] <= 'Z');
    LowerKeeps(s);
  }

  /** The intended new name: the prefix, the digest of the file itself and
      its suffixes, in the file's own directory unless `flatten` moves it
      to the working directory. */
  lemma TargetName(root: Node, i: RelPath, o: SourceOptions, hash: Hasher, a: Algorithm)
    requires IsFile(root, i) && SourceAlgorithm(o.algorithm) == a
    ensures var t := Target(root, i, o, hash);
      && t.Ok? && t.value.source == i
      && (o.flatten ==> t.value.dir == [])
      && (!o.flatten && i != [] ==> t.value.dir + [Name(i)] == i)
      && t.value.name == PrefixText(o.prefix) + hash(a, i) + SuffixText(i, o.dropSuffix)
  {
    if !o.flatten && i != [] {
      ParentAndName(i);
    }
  }

  /** So a renamed file keeps its suffix and suffixes, and is selected by
      the same include and exclude lists as before. */
  lemma RenamedFilePassesAgain(root: Node, i: RelPath, o: SourceOptions, hash: Hasher, a: Algorithm,
                               stem: string, exts: seq<string>,
                               includes: Option<set<string>>, excludes: Option<set<string>>)
    requires IsFile(root, i) && SourceAlgorithm(o.algorithm) == a && IsHexDigest(a, hash(a, i))
    requires !o.dropSuffix && '.' !in PrefixText(o.prefix)
    requires Name(i) == stem + Concat(Dotted(exts)) && DottedName(stem, exts)
    ensures Target(root, i, o, hash).Ok?
    ensures ScriptsFilter.Passes(Target(root, i, o, hash).value.name, includes, excludes) ==
      ScriptsFilter.Passes(Name(i), includes, excludes)
  {
    var d := hash(a, i);
    assert Target(root, i, o, hash).value.name == PrefixText(o.prefix) + d + JoinedSuffixes(Name(i)) by {
      TargetName(root, i, o, hash, a);
    }
    assert d != [] && IsHex(d) by {
      assert |d| == HexLength(a) > 0;
    }
    RenamedNamePasses(PrefixText(o.prefix), d, Name(i), stem, exts, includes, excludes);
  }

  /** An algorithm name the digest does not know renames every file as
      `sha256` would. */
  lemma UnknownAlgorithmFallsBack(root: Node, path: PathArg, o: SourceOptions, hash: Hasher)
    requires AlgorithmOf(o.algorithm).Err?
    ensures RenameOf(root, path, o, hash) == RenameOf(root, path, o.(algorithm := "sha256"), hash)
  {
    var files := SourceFilter.Selected(root, path, o.includes, o.excludes, false);
    var o' := o.(algorithm := "sha256");
    forall k | 0 <= k < |files|
      ensures Target(root, files[k], o, hash) == Target(root, files[k], o', hash)
    {
      TargetFallsBack(root, files[k], o, hash);
    }
    assert Targets(root, files, o, hash) == Targets(root, files, o', hash);
  }

  /** One pass with an unknown algorithm name is the pass with `sha256`. */
  lemma TargetFallsBack(root: Node, i: RelPath, o: SourceOptions, hash: Hasher)
    requires AlgorithmOf(o.algorithm).Err?
    ensures Target(root, i, o, hash) == Target(root, i, o.(algorithm := "sha256"), hash)
  {
    UnknownNameIsSha256(o.algorithm);
    assert SourceDigest(root, i, o.algorithm, hash) == SourceDigest(root, i, "sha256", hash);
  }

  /** With no path argument `main` renames in the working directory, as
      `rename()` does with its default path. */
  lemma NoArgsIsWorkingDirectory(root: Node, o: SourceOptions, hash: Hasher)
    ensures Runs(root, PathArgs([]), o, hash) == RenameOf(root, NoPath, o, hash)
  {
    var first := RenameOf(root, PathObj([]), o, hash);
    assert PathArgs([])[1..] == [];
    ThenStop(first.moves, None);
    assert ToPath(PathObj([])) == ToPath(NoPath);
  }
}
