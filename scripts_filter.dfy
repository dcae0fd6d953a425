/** `filter` of scripts/utils/filter.py: the files under a directory whose
    last suffix or whole suffix chain passes an includes/excludes test on
    normalised suffixes, with exclusion taking priority. */
module ScriptsFilter {
  import opened Py
  import opened PyText
  import opened FsTree

  /** `f'.{i.lstrip(".")}'`: a suffix given with any number of leading
      dots, or none, as a dotted suffix. */
  function Normalise(entry: string): (r: string)
    ensures |r| >= 1 && r[0] == '.'
    ensures r[1..] == [] || r[1] != '.'
  {
    "." + LStripChars(entry, ".")
  }

  /** `set(f'.{i.lstrip(".")}' for i in entries)` */
  function NormaliseAll(entries: seq<string>): (r: set<string>)
    ensures forall x :: x in r <==> exists i :: 0 <= i < |entries| && x == Normalise(entries[i])
  {
    set i | 0 <= i < |entries| :: Normalise(entries[i])
  }

  /** An absent list stays absent. */
  function Normalised(entries: Option<seq<string>>): Option<set<string>> {
    match entries
    case None => None
    case Some(es) => Some(NormaliseAll(es))
  }

  /** The test one file passes: neither its last suffix nor its joined
      suffixes excluded, and, when there is an includes list, one of the
      two included. */
  predicate Passes(name: string, includes: Option<set<string>>, excludes: Option<set<string>>) {
    var suffix := Suffix(name);
    var suffixes := JoinedSuffixes(name);
    && (excludes.Some? ==> suffix !in excludes.value && suffixes !in excludes.value)
    && (includes.Some? ==> suffix in includes.value || suffixes in includes.value)
  }

  /** Whether the loop yields the listed path `i`. */
  predicate Keeps(root: Node, i: RelPath, includes: Option<set<string>>, excludes: Option<set<string>>) {
    IsFile(root, i) && Passes(Name(i), includes, excludes)
  }

  /** The listed paths the loop yields, in listing order. */
  function Kept(root: Node, paths: seq<RelPath>, includes: Option<set<string>>, excludes: Option<set<string>>): seq<RelPath> {
    if paths == [] then []
    else
      var i := paths[|paths| - 1];
      Kept(root, paths[..|paths| - 1], includes, excludes) + (if Keeps(root, i, includes, excludes) then [i] else [])
  }

  /** Everything `filter(path, includes, excludes, recursive)` yields. */
  function Selected(root: Node, path: PathArg, includes: Option<seq<string>>,
                    excludes: Option<seq<string>>, recursive: bool): seq<RelPath>
  {
    var p := ToPath(path);
    if IsFile(root, p) then [p]
    else Kept(root, Glob(root, p, recursive), Normalised(includes), Normalised(excludes))
  }

  /** One more listed path: it is yielded after the earlier ones when it
      is kept. */
  lemma KeptStep(root: Node, paths: seq<RelPath>, k: nat,
                 includes: Option<set<string>>, excludes: Option<set<string>>)
    requires k < |paths|
    ensures Kept(root, paths[..k + 1], includes, excludes) ==
      Kept(root, paths[..k], includes, excludes) + (if Keeps(root, paths[k], includes, excludes) then [paths[k]] else [])
  {
    assert paths[..k + 1][..k] == paths[..k];
  }

  /** The generator, run to exhaustion. */
  method Filter(root: Node, path: PathArg, includes: Option<seq<string>>,
                excludes: Option<seq<string>>, recursive: bool)
    returns (yielded: seq<RelPath>)
    ensures yielded == Selected(root, path, includes, excludes, recursive)
  {
    var p := ToPath(path);
    if IsFile(root, p) {
      yielded := [p];
      return;
    }
    var inc := Normalised(includes);
    var exc := Normalised(excludes);
    var paths := Glob(root, p, recursive);
    yielded := [];
    for k := 0 to |paths|
      invariant yielded == Kept(root, paths[..k], inc, exc)
    {
      KeptStep(root, paths, k, inc, exc);
      var i := paths[k];
      var keep := IsFile(root, i);
      if keep {
        var suffix := Suffix(Name(i));
        var suffixes := JoinedSuffixes(Name(i));
        if exc.Some? && (suffix in exc.value || suffixes in exc.value) {
          keep := false;
        } else if inc.Some? && suffix !in inc.value && suffixes !in inc.value {
          keep := false;
        }
      }
      assert keep == Keeps(root, i, inc, exc);
      if keep {
        yielded := yielded + [i];
      }
    }
    assert paths[..|paths|] == paths;
  }

  /** A path is kept exactly when it is listed and passes. */
  lemma {:induction false} KeptMembers(root: Node, paths: seq<RelPath>,
                                      includes: Option<set<string>>, excludes: Option<set<string>>)
    ensures forall x :: x in Kept(root, paths, includes, excludes) <==>
      x in paths && Keeps(root, x, includes, excludes)
  {
    if paths != [] {
      var init := paths[..|paths| - 1];
      KeptMembers(root, init, includes, excludes);
      assert paths == init + [paths[|paths| - 1]];
    }
  }

  /** A path argument naming a file yields exactly that file, whatever the
      includes and excludes lists say; otherwise a path is yielded exactly
      when it is listed, is a file, and passes the suffix test. */
  lemma SelectedMembers(root: Node, path: PathArg, includes: Option<seq<string>>,
                        excludes: Option<seq<string>>, recursive: bool, x: RelPath)
    ensures IsFile(root, ToPath(path)) ==> Selected(root, path, includes, excludes, recursive) == [ToPath(path)]
    ensures !IsFile(root, ToPath(path)) ==>
      (x in Selected(root, path, includes, excludes, recursive) <==>
        && x in Glob(root, ToPath(path), recursive)
        && IsFile(root, x)
        && Passes(Name(x), Normalised(includes), Normalised(excludes)))
  {
    KeptMembers(root, Glob(root, ToPath(path), recursive), Normalised(includes), Normalised(excludes));
  }

  /** Exclusion wins: a file whose last suffix or joined suffixes is in the
      excludes list is never yielded from a directory, even when the
      includes list names it too. */
  lemma ExcludeWins(root: Node, path: PathArg, includes: Option<seq<string>>,
                    excludes: seq<string>, recursive: bool, x: RelPath)
    requires !IsFile(root, ToPath(path))
    requires Suffix(Name(x)) in NormaliseAll(excludes) || JoinedSuffixes(Name(x)) in NormaliseAll(excludes)
    ensures x !in Selected(root, path, includes, Some(excludes), recursive)
  {
    SelectedMembers(root, path, includes, Some(excludes), recursive, x);
  }

  /** Without an includes list every listed file that is not excluded is
      yielded. */
  lemma NoIncludeKeepsAll(root: Node, path: PathArg, excludes: Option<seq<string>>,
                          recursive: bool, x: RelPath)
    requires !IsFile(root, ToPath(path))
    requires x in Glob(root, ToPath(path), recursive) && IsFile(root, x)
    requires excludes.Some? ==>
      Suffix(Name(x)) !in NormaliseAll(excludes.value) && JoinedSuffixes(Name(x)) !in NormaliseAll(excludes.value)
    ensures x in Selected(root, path, None, excludes, recursive)
  {
    SelectedMembers(root, path, None, excludes, recursive, x);
  }

  /** Leading dots do not matter: `txt`, `.txt` and `..txt` name the same
      suffix. */
  lemma {:induction false} NormaliseLeadingDots(dots: string, entry: string)
    requires forall i :: 0 <= i < |dots| ==> dots[i] == '.'
    ensures Normalise(dots + entry) == Normalise(entry)
  {
    if dots != [] {
      assert (dots + entry)[0] == '.' && (dots + entry)[1..] == dots[1..] + entry;
      NormaliseLeadingDots(dots[1..], entry);
    } else {
      assert dots + entry == entry;
    }
  }

  /** Normalising twice changes nothing. */
  lemma NormaliseIdempotent(entry: string)
    ensures Normalise(Normalise(entry)) == Normalise(entry)
  {
    var s := LStripChars(entry, ".");
    NormaliseLeadingDots(".", s);
  }

  /** Without recursion only the directory's own entries are yielded. */
  lemma DirectChildrenOnly(root: Node, path: PathArg, includes: Option<seq<string>>,
                           excludes: Option<seq<string>>, x: RelPath)
    requires !IsFile(root, ToPath(path))
    requires x in Selected(root, path, includes, excludes, false)
    ensures |x| == |ToPath(path)| + 1 && x[..|ToPath(path)|] == ToPath(path)
  {
    var p := ToPath(path);
    SelectedMembers(root, path, includes, excludes, false, x);
    if Lookup(root, p).Some? {
      ListingBelow(p, Lookup(root, p).value, false);
    }
  }

  /** With recursion every file anywhere below the directory that passes
      the suffix test is yielded. */
  lemma RecursiveReachesAll(root: Node, path: PathArg, includes: Option<seq<string>>,
                            excludes: Option<seq<string>>, rel: RelPath)
    requires Lookup(root, ToPath(path)).Some? && !IsFile(root, ToPath(path))
    requires rel != [] && IsFile(root, ToPath(path) + rel)
    requires Passes(Name(ToPath(path) + rel), Normalised(includes), Normalised(excludes))
    ensures ToPath(path) + rel in Selected(root, path, includes, excludes, true)
  {
    var p := ToPath(path);
    LookupConcat(root, p, rel);
    ListingComplete(p, Lookup(root, p).value, rel);
    SelectedMembers(root, path, includes, excludes, true, p + rel);
  }
}
