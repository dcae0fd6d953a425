/** `rename` and `main` of script/hash_rename.py: every file the filter
    yields is renamed to prefix + content digest + suffixes, in the case the
    selector names, inside its own directory or the working directory. A
    run is modelled by the moves it carries out, in order, up to the
    exception that ends it. */
module ScriptHashRename {
  import opened Py
  import opened PyText
  import opened FsTree
  import opened Digest
  import ScriptsFilter

  datatype Case = LowerCase | UpperCase | KeepCase

  /** The arguments of `rename` besides `path`; `quiet` only silences the
      report line and is left out. */
  datatype Options = Options(
    includes: Option<seq<string>>,
    excludes: Option<seq<string>>,
    prefix: Option<string>,
    dropSuffix: bool,
    caseSelector: string,
    flatten: bool,
    algorithm: string)

  /** One `i.rename(parent / name)`. */
  datatype Move = Move(source: RelPath, dir: RelPath, name: string)

  /** The renames carried out, in order, and the exception that ended the
      loop, if one did. */
  datatype Outcome = Outcome(moves: seq<Move>, error: Option<Error>)

  /** `match case_.lower()`: anything but the three names is a
      `ValueError`. */
  function CaseOf(selector: string): (r: Result<Case>)
    ensures r == Ok(LowerCase) <==> Lower(selector) == "lower"
    ensures r == Ok(UpperCase) <==> Lower(selector) == "upper"
    ensures r == Ok(KeepCase) <==> Lower(selector) == "keep"
    ensures r.Err? ==> r.error == ValueError("value '" + selector + "' is invalid, expect 'lower', 'upper' or 'keep'.")
  {
    var key := Lower(selector);
    if key == "lower" then Ok(LowerCase)
    else if key == "upper" then Ok(UpperCase)
    else if key == "keep" then Ok(KeepCase)
    else Err(ValueError("value '" + selector + "' is invalid, expect 'lower', 'upper' or 'keep'."))
  }

  /** `name.lower()`, `name.upper()` or the name as it is. */
  function Convert(c: Case, name: string): (r: string)
    ensures |r| == |name|
    ensures c == KeepCase ==> r == name
    ensures c == LowerCase ==> forall k :: 0 <= k < |r| ==> !('A' <= r[k] <= 'Z')
    ensures c == UpperCase ==> forall k :: 0 <= k < |r| ==> !('a' <= r[k] <= 'z')
    ensures c == LowerCase ==> forall k :: 0 <= k < |r| ==> r[k] == LowerChar(name[k])
    ensures c == UpperCase ==> forall k :: 0 <= k < |r| ==> r[k] == UpperChar(name[k])
    ensures forall k :: 0 <= k < |r| && !IsAsciiLetter(name[k]) ==> r[k] == name[k]
  {
    match c
    case LowerCase => Lower(name)
    case UpperCase => Upper(name)
    case KeepCase => name
  }

  /** `if prefix is None: prefix = ''` */
  function PrefixText(prefix: Option<string>): string {
    if prefix.Some? then prefix.value else ""
  }

  /** `'' if drop_suffix else ''.join(i.suffixes)` */
  function SuffixText(i: RelPath, dropSuffix: bool): string {
    if dropSuffix then "" else JoinedSuffixes(Name(i))
  }

  /** `Path() if flatten else i.parent` */
  function TargetDir(i: RelPath, flatten: bool): RelPath {
    if flatten then [] else Parent(i)
  }

  /** What one pass of the loop does with the yielded file `i`: the digest
      is taken before the case selector is looked at. */
  function Target(root: Node, i: RelPath, o: Options, hash: Hasher): Result<Move> {
    var d :- HexDigest(root, i, o.algorithm, hash);
    var c :- CaseOf(o.caseSelector);
    Ok(Move(i, TargetDir(i, o.flatten), Convert(c, PrefixText(o.prefix) + d + SuffixText(i, o.dropSuffix))))
  }

  /** The moves `ms` followed by a later run. */
  function Then(ms: seq<Move>, later: Outcome): Outcome {
    Outcome(ms + later.moves, later.error)
  }

  /** The pass of the loop for each yielded file, in order. */
  function Targets(root: Node, files: seq<RelPath>, o: Options, hash: Hasher): (ts: seq<Result<Move>>)
    ensures |ts| == |files|
    ensures forall k :: 0 <= k < |files| ==> ts[k] == Target(root, files[k], o, hash)
  {
    seq(|files|, k requires 0 <= k < |files| => Target(root, files[k], o, hash))
  }

  /** The passes `ts` carried out in order up to the first one that
      raises. */
  function Until(ts: seq<Result<Move>>): Outcome
    decreases |ts|
  {
    if ts == [] then Outcome([], None)
    else
      match ts[0]
      case Err(e) => Outcome([], Some(e))
      case Ok(m) => Then([m], Until(ts[1..]))
  }

  /** `rename(path, ...)`: `filter(path, include, exclude)` does not
      recurse. */
  function RenameOf(root: Node, path: PathArg, o: Options, hash: Hasher): Outcome {
    Until(Targets(root, ScriptsFilter.Selected(root, path, o.includes, o.excludes, false), o, hash))
  }

  /** `rename`, step by step as the loop runs. */
  method Rename(root: Node, path: PathArg, o: Options, hash: Hasher) returns (r: Outcome)
    ensures r == RenameOf(root, path, o, hash)
  {
    var prefix := if o.prefix.None? then "" else o.prefix.value;
    var files := ScriptsFilter.Filter(root, path, o.includes, o.excludes, false);
    ghost var ts := Targets(root, files, o, hash);
    var moves: seq<Move> := [];
    ThenNothing(ts, Until(ts));
    for k := 0 to |files|
      invariant Until(ts) == Then(moves, Until(ts[k..]))
    {
      UntilStep(ts, k);
      var t := RenameOne(root, files[k], prefix, o, hash);
      if t.Err? {
        ThenStop(moves, Some(t.error));
        return Outcome(moves, Some(t.error));
      }
      ThenAppend(moves, t.value, Until(ts[k + 1..]));
      moves := moves + [t.value];
    }
    assert ts[|ts|..] == [];
    ThenStop(moves, None);
    return Outcome(moves, None);
  }

  /** The body of the loop for the yielded file `i`. */
  method RenameOne(root: Node, i: RelPath, prefix: string, o: Options, hash: Hasher) returns (t: Result<Move>)
    requires prefix == PrefixText(o.prefix)
    ensures t == Target(root, i, o, hash)
  {
    var parent := if o.flatten then [] else Parent(i);
    var suffix := if o.dropSuffix then "" else JoinedSuffixes(Name(i));
    var digest := HexDigest(root, i, o.algorithm, hash);
    if digest.Err? {
      return Err(digest.error);
    }
    var name := prefix + digest.value + suffix;
    var c := CaseOf(o.caseSelector);
    if c.Err? {
      return Err(c.error);
    }
    name := Convert(c.value, name);
    return Ok(Move(i, parent, name));
  }

  /** One more pass of the loop over `ts[k..]`. */
  lemma UntilStep(ts: seq<Result<Move>>, k: nat)
    requires k < |ts|
    ensures Until(ts[k..]) ==
      match ts[k]
      case Err(e) => Outcome([], Some(e))
      case Ok(m) => Then([m], Until(ts[k + 1..]))
  {
    assert ts[k..][0] == ts[k] && ts[k..][1..] == ts[k + 1..];
  }

  /** No moves before a run leave it as it is. */
  lemma ThenNothing(ts: seq<Result<Move>>, run: Outcome)
    ensures ts[0..] == ts && Then([], run) == run
  {
    assert [] + run.moves == run.moves;
  }

  /** Moves before a run that carries out nothing. */
  lemma ThenStop(ms: seq<Move>, e: Option<Error>)
    ensures Then(ms, Outcome([], e)) == Outcome(ms, e)
  {
    assert ms + [] == ms;
  }

  /** Moving one move from a later run to the moves before it. */
  lemma ThenAppend(ms: seq<Move>, m: Move, later: Outcome)
    ensures Then(ms, Then([m], later)) == Then(ms + [m], later)
  {
    assert ms + ([m] + later.moves) == (ms + [m]) + later.moves;
  }

  /** `options.path`, filled in with `Path()` when no path is given. */
  function PathArgs(args: seq<string>): (r: seq<PathArg>)
    ensures args == [] ==> r == [PathObj([])]
    ensures args != [] ==> |r| == |args| && forall k :: 0 <= k < |args| ==> r[k] == Str(args[k])
  {
    if args == [] then [PathObj([])]
    else seq(|args|, k requires 0 <= k < |args| => Str(args[k]))
  }

  /** The `rename` calls of `main`, one per path, up to the first
      exception. */
  function Runs(root: Node, paths: seq<PathArg>, o: Options, hash: Hasher): Outcome
    decreases |paths|
  {
    if paths == [] then Outcome([], None)
    else
      var first := RenameOf(root, paths[0], o, hash);
      if first.error.Some? then first
      else Then(first.moves, Runs(root, paths[1..], o, hash))
  }

  /** `main` after argument parsing. */
  method Command(root: Node, args: seq<string>, o: Options, hash: Hasher) returns (r: Outcome)
    ensures r == Runs(root, PathArgs(args), o, hash)
  {
    var paths := if args == [] then [PathObj([])] else PathArgs(args);
    var moves: seq<Move> := [];
    for k := 0 to |paths|
      invariant Runs(root, paths, o, hash) == Then(moves, Runs(root, paths[k..], o, hash))
    {
      RunsStep(root, paths, k, o, hash);
      var run := Rename(root, paths[k], o, hash);
      if run.error.Some? {
        return Outcome(moves + run.moves, run.error);
      }
      ThenJoin(moves, run.moves, Runs(root, paths[k + 1..], o, hash));
      moves := moves + run.moves;
    }
    assert paths[|paths|..] == [];
    return Outcome(moves, None);
  }

  /** One more `rename` call over `paths[k..]`. */
  lemma RunsStep(root: Node, paths: seq<PathArg>, k: nat, o: Options, hash: Hasher)
    requires k < |paths|
    ensures Runs(root, paths[k..], o, hash) ==
      var first := RenameOf(root, paths[k], o, hash);
      if first.error.Some? then first else Then(first.moves, Runs(root, paths[k + 1..], o, hash))
  {
    assert paths[k..][0] == paths[k] && paths[k..][1..] == paths[k + 1..];
  }

  lemma ThenJoin(ms: seq<Move>, ns: seq<Move>, later: Outcome)
    ensures Then(ms, Then(ns, later)) == Then(ms + ns, later)
  {
    assert ms + (ns + later.moves) == (ms + ns) + later.moves;
  }

  /** The run carries out the passes one by one, in order, and stops at
      the first one that raises. */
  lemma {:induction false} UntilInOrder(ts: seq<Result<Move>>)
    ensures var r := Until(ts);
      && |r.moves| <= |ts|
      && (forall k :: 0 <= k < |r.moves| ==> ts[k] == Ok(r.moves[k]))
      && (r.error.None? ==> |r.moves| == |ts|)
      && (r.error.Some? ==> |r.moves| < |ts| && ts[|r.moves|] == Err(r.error.value))
      && ((forall k :: 0 <= k < |ts| ==> ts[k].Ok?) ==> r.error.None?)
    decreases |ts|
  {
    if ts != [] && ts[0].Ok? {
      var rest := Until(ts[1..]);
      UntilInOrder(ts[1..]);
      var r := Until(ts);
      assert r.moves == [ts[0].value] + rest.moves;
      forall k | 1 <= k < |r.moves|
        ensures ts[k] == Ok(r.moves[k])
      {
        assert r.moves[k] == rest.moves[k - 1] && ts[k] == ts[1..][k - 1];
      }
      if r.error.Some? {
        assert ts[|r.moves|] == ts[1..][|rest.moves|];
      }
    }
  }

  /** Every path the filter yields is a file. */
  lemma SelectedAreFiles(root: Node, path: PathArg, includes: Option<seq<string>>, excludes: Option<seq<string>>)
    ensures forall x :: x in ScriptsFilter.Selected(root, path, includes, excludes, false) ==> IsFile(root, x)
  {
    forall x | x in ScriptsFilter.Selected(root, path, includes, excludes, false)
      ensures IsFile(root, x)
    {
      ScriptsFilter.SelectedMembers(root, path, includes, excludes, false, x);
    }
  }

  /** With nothing to rename a `rename` call does nothing, even with an
      unknown algorithm or case selector, since both are looked at only
      inside the loop; otherwise an unknown algorithm stops it at the
      first file, before any rename. */
  lemma RenameFailsOnAlgorithm(root: Node, path: PathArg, o: Options, hash: Hasher)
    ensures var files := ScriptsFilter.Selected(root, path, o.includes, o.excludes, false);
      var r := RenameOf(root, path, o, hash);
      && (files == [] ==> r == Outcome([], None))
      && (files != [] && AlgorithmOf(o.algorithm).Err? ==> r == Outcome([], Some(AlgorithmOf(o.algorithm).error)))
  {
    var files := ScriptsFilter.Selected(root, path, o.includes, o.excludes, false);
    if files != [] {
      SelectedAreFiles(root, path, o.includes, o.excludes);
      assert files[0] in files;
      TargetOutcome(root, files[0], o, hash);
    }
  }

  /** With a known algorithm, an unknown case selector stops a `rename`
      call at the first file, before any rename. */
  lemma RenameFailsOnCase(root: Node, path: PathArg, o: Options, hash: Hasher)
    requires AlgorithmOf(o.algorithm).Ok? && CaseOf(o.caseSelector).Err?
    ensures var files := ScriptsFilter.Selected(root, path, o.includes, o.excludes, false);
      files != [] ==> RenameOf(root, path, o, hash) == Outcome([], Some(CaseOf(o.caseSelector).error))
  {
    var files := ScriptsFilter.Selected(root, path, o.includes, o.excludes, false);
    if files != [] {
      SelectedAreFiles(root, path, o.includes, o.excludes);
      assert files[0] in files;
      TargetOutcome(root, files[0], o, hash);
    }
  }

  /** With a known algorithm and selector every yielded file is renamed,
      in the filter's order. */
  lemma RenameMovesAll(root: Node, path: PathArg, o: Options, hash: Hasher)
    requires AlgorithmOf(o.algorithm).Ok? && CaseOf(o.caseSelector).Ok?
    ensures var files := ScriptsFilter.Selected(root, path, o.includes, o.excludes, false);
      var r := RenameOf(root, path, o, hash);
      && r.error == None && |r.moves| == |files|
      && forall k :: 0 <= k < |files| ==> r.moves[k].source == files[k]
  {
    var files := ScriptsFilter.Selected(root, path, o.includes, o.excludes, false);
    var ts := Targets(root, files, o, hash);
    SelectedAreFiles(root, path, o.includes, o.excludes);
    forall k | 0 <= k < |ts|
      ensures ts[k].Ok? && ts[k].value.source == files[k]
    {
      assert files[k] in files;
      TargetOutcome(root, files[k], o, hash);
    }
    UntilInOrder(ts);
  }

  /** The pass for one file: the algorithm's `ValueError` comes first, then
      the selector's; with both known the file is moved. */
  lemma TargetOutcome(root: Node, i: RelPath, o: Options, hash: Hasher)
    requires IsFile(root, i)
    ensures AlgorithmOf(o.algorithm).Err? ==> Target(root, i, o, hash) == Err(AlgorithmOf(o.algorithm).error)
    ensures AlgorithmOf(o.algorithm).Ok? && CaseOf(o.caseSelector).Err? ==>
      Target(root, i, o, hash) == Err(CaseOf(o.caseSelector).error)
    ensures AlgorithmOf(o.algorithm).Ok? && CaseOf(o.caseSelector).Ok? ==>
      Target(root, i, o, hash).Ok? && Target(root, i, o, hash).value.source == i
  {
  }

  /** Case conversion works character by character. */
  lemma ConvertConcat(c: Case, x: string, y: string)
    ensures Convert(c, x + y) == Convert(c, x) + Convert(c, y)
  {
    var r := Convert(c, x + y);
    var q := Convert(c, x) + Convert(c, y);
    if c != KeepCase {
      assert forall k :: 0 <= k < |x| ==> (x + y)[k] == x[k];
      assert forall k :: |x| <= k < |x| + |y| ==> (x + y)[k] == y[k - |x|];
      assert forall k :: 0 <= k < |r| ==> r[k] == q[k];
    }
  }

  /** The new name of a file: the prefix, then the digest, then the
      suffixes, each in the selected case; a digest is lower-case already,
      so only `upper` changes it. The file stays in its directory unless
      `flatten` moves it to the working directory. */
  lemma TargetName(root: Node, i: RelPath, o: Options, hash: Hasher, a: Algorithm)
    requires IsFile(root, i) && AlgorithmOf(o.algorithm) == Ok(a) && CaseOf(o.caseSelector).Ok?
    requires IsHexDigest(a, hash(a, i))
    ensures var t := Target(root, i, o, hash);
      var c := CaseOf(o.caseSelector).value;
      var p := PrefixText(o.prefix);
      var s := SuffixText(i, o.dropSuffix);
      && t.Ok? && t.value.source == i
      && (o.flatten ==> t.value.dir == [])
      && (!o.flatten && i != [] ==> t.value.dir + [Name(i)] == i)
      && |t.value.name| == |p| + HexLength(a) + |s|
      && t.value.name[..|p|] == Convert(c, p)
      && t.value.name[|p|..|p| + HexLength(a)] == (if c == UpperCase then Upper(hash(a, i)) else hash(a, i))
      && t.value.name[|p| + HexLength(a)..] == Convert(c, s)
  {
    var c := CaseOf(o.caseSelector).value;
    var d := hash(a, i);
    var p, s := PrefixText(o.prefix), SuffixText(i, o.dropSuffix);
    TargetMove(root, i, o, hash, a);
    LowerKeepsHex(d);
    NameParts(c, p, d, s);
    if !o.flatten && i != [] {
      ParentAndName(i);
    }
  }

  /** The pass for a file that hashes and a case that parses. */
  lemma TargetMove(root: Node, i: RelPath, o: Options, hash: Hasher, a: Algorithm)
    requires IsFile(root, i) && AlgorithmOf(o.algorithm) == Ok(a) && CaseOf(o.caseSelector).Ok?
    ensures Target(root, i, o, hash) == Ok(Move(i, TargetDir(i, o.flatten),
      Convert(CaseOf(o.caseSelector).value, PrefixText(o.prefix) + hash(a, i) + SuffixText(i, o.dropSuffix))))
  {
  }

  /** `i.parent / i.name` is `i`. */
  lemma ParentAndName(i: RelPath)
    requires i != []
    ensures Parent(i) + [Name(i)] == i
  {
  }

  /** The three parts of a converted name, each converted on its own. */
  lemma NameParts(c: Case, p: string, d: string, s: string)
    ensures var n := Convert(c, p + d + s);
      && |n| == |p| + |d| + |s|
      && n[..|p|] == Convert(c, p)
      && n[|p|..|p| + |d|] == Convert(c, d)
      && n[|p| + |d|..] == Convert(c, s)
  {
    ConvertConcat(c, p + d, s);
    ConvertConcat(c, p, d);
    var n := Convert(c, p + d + s);
    assert n == Convert(c, p) + Convert(c, d) + Convert(c, s);
  }

  /** A new name keeps the old name's suffix and suffixes when the prefix
      has no dot: the digest is a dot-free stem in front of them. */
  lemma RenamedKeepsSuffixes(prefix: string, d: string, stem: string, exts: seq<string>)
    requires '.' !in prefix && d != [] && IsHex(d) && DottedName(stem, exts)
    ensures var before := stem + Concat(Dotted(exts));
      var after := prefix + d + JoinedSuffixes(before);
      Suffix(after) == Suffix(before) && JoinedSuffixes(after) == JoinedSuffixes(before)
  {
    SuffixesOfExtensions(stem, exts);
    SuffixOfExtensions(stem, exts);
    HexHasNoDot(d);
    assert '.' !in prefix + d;
    SuffixesOfExtensions(prefix + d, exts);
    SuffixOfExtensions(prefix + d, exts);
  }

  /** So, with the case kept and the suffix not dropped, a renamed file is
      selected by the same include and exclude lists as before. */
  lemma RenamedFilePassesAgain(root: Node, i: RelPath, o: Options, hash: Hasher, a: Algorithm,
                               stem: string, exts: seq<string>,
                               includes: Option<set<string>>, excludes: Option<set<string>>)
    requires IsFile(root, i) && AlgorithmOf(o.algorithm) == Ok(a) && IsHexDigest(a, hash(a, i))
    requires CaseOf(o.caseSelector) == Ok(KeepCase) && !o.dropSuffix && '.' !in PrefixText(o.prefix)
    requires Name(i) == stem + Concat(Dotted(exts)) && DottedName(stem, exts)
    ensures Target(root, i, o, hash).Ok?
    ensures ScriptsFilter.Passes(Target(root, i, o, hash).value.name, includes, excludes) ==
      ScriptsFilter.Passes(Name(i), includes, excludes)
  {
    var d := hash(a, i);
    var t := Target(root, i, o, hash);
    assert t == Ok(Move(i, TargetDir(i, o.flatten), PrefixText(o.prefix) + d + JoinedSuffixes(Name(i)))) by {
      TargetKeepingCase(root, i, o, hash, a);
    }
    assert d != [] && IsHex(d) by {
      assert |d| == HexLength(a) > 0;
    }
    RenamedNamePasses(PrefixText(o.prefix), d, Name(i), stem, exts, includes, excludes);
  }

  lemma RenamedNamePasses(prefix: string, d: string, name: string, stem: string, exts: seq<string>,
                          includes: Option<set<string>>, excludes: Option<set<string>>)
    requires '.' !in prefix && d != [] && IsHex(d) && DottedName(stem, exts)
    requires name == stem + Concat(Dotted(exts))
    ensures ScriptsFilter.Passes(prefix + d + JoinedSuffixes(name), includes, excludes) ==
      ScriptsFilter.Passes(name, includes, excludes)
  {
    RenamedKeepsSuffixes(prefix, d, stem, exts);
    SameSuffixesPass(prefix + d + JoinedSuffixes(name), name, includes, excludes);
  }

  /** With the case kept and the suffix not dropped, the new name is the
      prefix, the digest and the old suffixes. */
  lemma TargetKeepingCase(root: Node, i: RelPath, o: Options, hash: Hasher, a: Algorithm)
    requires IsFile(root, i) && AlgorithmOf(o.algorithm) == Ok(a)
    requires CaseOf(o.caseSelector) == Ok(KeepCase) && !o.dropSuffix
    ensures Target(root, i, o, hash) ==
      Ok(Move(i, TargetDir(i, o.flatten), PrefixText(o.prefix) + hash(a, i) + JoinedSuffixes(Name(i))))
  {
    var name := PrefixText(o.prefix) + hash(a, i) + SuffixText(i, o.dropSuffix);
    assert HexDigest(root, i, o.algorithm, hash) == Ok(hash(a, i));
    assert Convert(KeepCase, name) == name;
  }

  /** The filter's test looks only at the suffix and the joined suffixes. */
  lemma SameSuffixesPass(x: string, y: string, includes: Option<set<string>>, excludes: Option<set<string>>)
    requires Suffix(x) == Suffix(y) && JoinedSuffixes(x) == JoinedSuffixes(y)
    ensures ScriptsFilter.Passes(x, includes, excludes) == ScriptsFilter.Passes(y, includes, excludes)
  {
  }

  /** With no path argument `main` renames in the working directory, as
      `rename()` does with its default path. */
  lemma NoArgsIsWorkingDirectory(root: Node, o: Options, hash: Hasher)
    ensures Runs(root, PathArgs([]), o, hash) == RenameOf(root, NoPath, o, hash)
  {
    var first := RenameOf(root, PathObj([]), o, hash);
    assert PathArgs([])[1..] == [];
    ThenStop(first.moves, None);
    assert ToPath(PathObj([])) == ToPath(NoPath);
  }
}
