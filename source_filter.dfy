/** `filter` of source/utils/filter.py: the same decision as the scripts
    variant, with the normalised suffixes kept in tuples and an absent
    exclude list replaced by the empty tuple. */
module SourceFilter {
  import opened Py
  import opened FsTree
  import ScriptsFilter

  /** `tuple(f".{i.lstrip('.')}" for i in entries)`; each entry is
      normalised as in the scripts variant. */
  function NormaliseAll(entries: seq<string>): (r: seq<string>)
    ensures |r| == |entries|
    ensures forall i :: 0 <= i < |entries| ==> r[i] == ScriptsFilter.Normalise(entries[i])
  {
    seq(|entries|, i requires 0 <= i < |entries| => ScriptsFilter.Normalise(entries[i]))
  }

  /** `if exclude is None: exclude = ()` */
  function ExcludeTuple(excludes: Option<seq<string>>): seq<string> {
    match excludes
    case None => []
    case Some(es) => NormaliseAll(es)
  }

  function IncludeTuple(includes: Option<seq<string>>): Option<seq<string>> {
    match includes
    case None => None
    case Some(es) => Some(NormaliseAll(es))
  }

  /** The test one file passes, on tuples. */
  predicate Passes(name: string, includes: Option<seq<string>>, excludes: seq<string>) {
    var suffix := Suffix(name);
    var suffixes := JoinedSuffixes(name);
    && suffix !in excludes && suffixes !in excludes
    && (includes.Some? ==> suffix in includes.value || suffixes in includes.value)
  }

  predicate Keeps(root: Node, i: RelPath, includes: Option<seq<string>>, excludes: seq<string>) {
    IsFile(root, i) && Passes(Name(i), includes, excludes)
  }

  /** The listed paths the loop yields, in listing order. */
  function Kept(root: Node, paths: seq<RelPath>, includes: Option<seq<string>>, excludes: seq<string>): seq<RelPath> {
    if paths == [] then []
    else
      var i := paths[|paths| - 1];
      Kept(root, paths[..|paths| - 1], includes, excludes) + (if Keeps(root, i, includes, excludes) then [i] else [])
  }

  /** Everything `filter(path, include, exclude, recursive)` yields. */
  function Selected(root: Node, path: PathArg, includes: Option<seq<string>>,
                    excludes: Option<seq<string>>, recursive: bool): seq<RelPath>
  {
    var p := ToPath(path);
    if IsFile(root, p) then [p]
    else Kept(root, Glob(root, p, recursive), IncludeTuple(includes), ExcludeTuple(excludes))
  }

  /** One more listed path: it is yielded after the earlier ones when it
      is kept. */
  lemma KeptStep(root: Node, paths: seq<RelPath>, k: nat, includes: Option<seq<string>>, excludes: seq<string>)
    requires k < |paths|
    ensures Kept(root, paths[..k + 1], includes, excludes) ==
      Kept(root, paths[..k], includes, excludes) + (if Keeps(root, paths[k], includes, excludes) then [paths[k]] else [])
  {
    assert paths[..k + 1][..k] == paths[..k];
  }

  /** The generator, run to exhaustion. */
  method Filter(root: Node, path: PathArg, includes: Option<seq<string>>,
                excludes: Option<seq<string>>, recursive: bool)
    returns (yielded: seq<RelPath>)
    ensures yielded == Selected(root, path, includes, excludes, recursive)
  {
    var p := ToPath(path);
    yielded := [];
    if IsFile(root, p) {
      yielded := yielded + [p];
    } else {
      var inc := IncludeTuple(includes);
      var exc := ExcludeTuple(excludes);
      var paths := Glob(root, p, recursive);
      for k := 0 to |paths|
        invariant yielded == Kept(root, paths[..k], inc, exc)
      {
        KeptStep(root, paths, k, inc, exc);
        var i := paths[k];
        if !IsFile(root, i) {
          continue;
        }
        var suffix := Suffix(Name(i));
        var suffixes := JoinedSuffixes(Name(i));
        if suffix in exc || suffixes in exc {
          continue;
        }
        if inc.Some? {
          if suffix !in inc.value && suffixes !in inc.value {
            continue;
          }
        }
        yielded := yielded + [i];
      }
      assert paths[..|paths|] == paths;
    }
  }

  /** The tuple test and the set test of the scripts variant decide alike
      for every file name, an absent exclude list included. */
  lemma PassesAgree(name: string, includes: Option<seq<string>>, excludes: Option<seq<string>>)
    ensures Passes(name, IncludeTuple(includes), ExcludeTuple(excludes)) ==
      ScriptsFilter.Passes(name, ScriptsFilter.Normalised(includes), ScriptsFilter.Normalised(excludes))
  {
    var suffix, suffixes := Suffix(name), JoinedSuffixes(name);
    if includes.Some? {
      NormaliseAgree(includes.value, suffix);
      NormaliseAgree(includes.value, suffixes);
    }
    if excludes.Some? {
      NormaliseAgree(excludes.value, suffix);
      NormaliseAgree(excludes.value, suffixes);
    }
  }

  /** The tuple and the set of normalised extensions hold the same ones. */
  lemma NormaliseAgree(es: seq<string>, x: string)
    ensures x in NormaliseAll(es) <==> x in ScriptsFilter.NormaliseAll(es)
  {
    if x in NormaliseAll(es) {
      var i :| 0 <= i < |es| && NormaliseAll(es)[i] == x;
    }
  }

  lemma {:induction false} KeptAgree(root: Node, paths: seq<RelPath>,
                                    includes: Option<seq<string>>, excludes: Option<seq<string>>)
    ensures Kept(root, paths, IncludeTuple(includes), ExcludeTuple(excludes)) ==
      ScriptsFilter.Kept(root, paths, ScriptsFilter.Normalised(includes), ScriptsFilter.Normalised(excludes))
  {
    if paths != [] {
      KeptAgree(root, paths[..|paths| - 1], includes, excludes);
      PassesAgree(Name(paths[|paths| - 1]), includes, excludes);
    }
  }

  /** Both variants of `filter` yield the same paths in the same order for
      every argument. */
  lemma FilterVariantsAgree(root: Node, path: PathArg, includes: Option<seq<string>>,
                            excludes: Option<seq<string>>, recursive: bool)
    ensures Selected(root, path, includes, excludes, recursive) ==
      ScriptsFilter.Selected(root, path, includes, excludes, recursive)
  {
    KeptAgree(root, Glob(root, ToPath(path), recursive), includes, excludes);
  }
}
