/** The part of `pathlib` the file filter and the batch renamer rely on:
    a directory tree below the working directory, relative paths as lists
    of components, `Path(str)`, `str(path)`, `name`, `suffix`, `suffixes`,
    `is_file()` and the listing order of `glob('*')` and `rglob('*')`. */
module FsTree {
  import opened Py
  import opened PyText

  /** A file holds the text `open(p, encoding='utf-8').read()` returns, or
      `None` when its bytes are not valid UTF-8; a directory holds its
      entries in the order `os.scandir` lists them. */
  datatype Node = File(text: Option<string>) | Dir(entries: seq<Entry>)
  datatype Entry = Entry(name: string, node: Node)

  /** A path relative to the working directory, as its components; `[]`
      is `Path()`. */
  type RelPath = seq<string>

  /** The `path` argument of the filter and the renamer: `None`, a `str`
      or a `Path`. */
  datatype PathArg = NoPath | Str(s: string) | PathObj(p: RelPath)

  /** The components `Path` keeps: empty parts and `.` are dropped. */
  function Components(parts: seq<string>): (r: RelPath)
    ensures |r| <= |parts|
    ensures forall i :: 0 <= i < |r| ==> r[i] != "" && r[i] != "."
  {
    if parts == [] then []
    else (if parts[0] == "" || parts[0] == "." then [] else [parts[0]]) + Components(parts[1..])
  }

  /** `Path(s)`, read relative to the tree: a leading `/` is dropped like
      any empty part, and `..` stays an ordinary component. */
  function ParsePath(s: string): RelPath {
    Components(SplitOn(s, '/'))
  }

  /** `if path is None: path = Path()` / `elif isinstance(path, str): path = Path(path)` */
  function ToPath(arg: PathArg): RelPath {
    match arg
    case NoPath => []
    case Str(s) => ParsePath(s)
    case PathObj(p) => p
  }

  /** `str(path)` */
  function PathText(p: RelPath): string {
    if p == [] then "." else Join("/", p)
  }

  /** A component `Path` keeps as it is. */
  predicate PlainName(n: string) {
    n != "" && n != "." && '/' !in n
  }

  /** `path.name` */
  function Name(p: RelPath): string {
    if p == [] then "" else p[|p| - 1]
  }

  /** `path.parent` */
  function Parent(p: RelPath): RelPath {
    if p == [] then [] else p[..|p| - 1]
  }

  /** The first position of `c` in `a + [c] + b` is just past `a` when `a`
      does not hold `c`. */
  lemma {:induction false} IndexOfAfter(a: string, c: char, b: string)
    requires c !in a
    ensures c in a + [c] + b && IndexOf(a + [c] + b, c) == |a|
  {
    assert (a + [c] + b)[|a|] == c;
    if a != [] {
      assert (a + [c] + b)[1..] == a[1..] + [c] + b;
      IndexOfAfter(a[1..], c, b);
    }
  }

  /** Splitting at the first `c` takes off the part in front of it. */
  lemma SplitAt(a: string, c: char, b: string)
    requires c !in a
    ensures SplitOn(a + [c] + b, c) == [a] + SplitOn(b, c)
  {
    IndexOfAfter(a, c, b);
    assert (a + [c] + b)[..|a|] == a;
    assert (a + [c] + b)[|a| + 1..] == b;
  }

  /** Splitting parts joined by `c` gives them back when no part holds `c`. */
  lemma {:induction false} SplitJoin(p: seq<string>, c: char)
    requires p != []
    requires forall i :: 0 <= i < |p| ==> c !in p[i]
    ensures SplitOn(Join([c], p), c) == p
  {
    if |p| > 1 {
      var rest := Join([c], p[1..]);
      assert Join([c], p) == p[0] + [c] + rest;
      SplitAt(p[0], c, rest);
      SplitJoin(p[1..], c);
      assert p == [p[0]] + p[1..];
    }
  }

  /** Plain components survive `Components` unchanged. */
  lemma {:induction false} ComponentsOfPlain(p: RelPath)
    requires forall i :: 0 <= i < |p| ==> PlainName(p[i])
    ensures Components(p) == p
  {
    if p != [] {
      ComponentsOfPlain(p[1..]);
      assert p == [p[0]] + p[1..];
    }
  }

  /** `Path(str(p)) == p` for a path of plain components. */
  lemma ParsePathText(p: RelPath)
    requires forall i :: 0 <= i < |p| ==> PlainName(p[i])
    ensures ParsePath(PathText(p)) == p
  {
    if p == [] {
      assert SplitOn(".", '/') == ["."];
      assert Components(["."]) == [] + Components([]);
    } else {
      SplitJoin(p, '/');
      ComponentsOfPlain(p);
    }
  }

  /** The node of the first entry called `name`. */
  function Find(es: seq<Entry>, name: string): (r: Option<Node>)
    ensures r.Some? <==> exists i :: 0 <= i < |es| && es[i].name == name
  {
    if es == [] then None
    else if es[0].name == name then Some(es[0].node)
    else
      var r := Find(es[1..], name);
      assert forall i :: 1 <= i < |es| ==> es[i] == es[1..][i - 1];
      r
  }

  /** The node a path names, if any. */
  function Lookup(n: Node, p: RelPath): Option<Node>
    decreases p
  {
    if p == [] then Some(n)
    else
      match n
      case File(_) => None
      case Dir(es) =>
        match Find(es, p[0])
        case None => None
        case Some(c) => Lookup(c, p[1..])
  }

  /** `path.is_file()` */
  predicate IsFile(root: Node, p: RelPath) {
    Lookup(root, p).Some? && Lookup(root, p).value.File?
  }

  /** Looking up `p + q` is looking up `q` below `p`. */
  lemma {:induction false} LookupConcat(n: Node, p: RelPath, q: RelPath)
    requires Lookup(n, p).Some?
    ensures Lookup(n, p + q) == Lookup(Lookup(n, p).value, q)
    decreases p
  {
    if p != [] {
      assert (p + q)[0] == p[0] && (p + q)[1..] == p[1..] + q;
      match n
      case Dir(es) =>
        LookupConcat(Find(es, p[0]).value, p[1..], q);
    } else {
      assert p + q == q;
    }
  }

  /** The paths of a directory's own entries, in listing order. */
  function Children(dir: RelPath, es: seq<Entry>): (r: seq<RelPath>)
    ensures |r| == |es|
    ensures forall i :: 0 <= i < |es| ==> r[i] == dir + [es[i].name]
  {
    seq(|es|, i requires 0 <= i < |es| => dir + [es[i].name])
  }

  /** What `dir.glob('*')` (`recursive` false) or `dir.rglob('*')` yields for
      the directory node `d` at `dir`: its entries, then, recursively, those
      of each sub-directory in turn (the order of Python 3.10's selectors,
      which visit directories depth first). */
  function Listing(dir: RelPath, d: Node, recursive: bool): seq<RelPath>
    decreases d, 1
  {
    match d
    case File(_) => []
    case Dir(es) => Children(dir, es) + (if recursive then Subtrees(dir, d, 0) else [])
  }

  /** The recursive listings of the sub-directories among the entries of
      `d` from position `i` on. */
  function Subtrees(dir: RelPath, d: Node, i: nat): seq<RelPath>
    requires d.Dir? && i <= |d.entries|
    decreases d, 0, |d.entries| - i
  {
    if i == |d.entries| then []
    else
      var e := d.entries[i];
      Listing(dir + [e.name], e.node, true) + Subtrees(dir, d, i + 1)
  }

  /** `path.glob('*')` or `path.rglob('*')`; nothing when `path` is not a
      directory. */
  function Glob(root: Node, p: RelPath, recursive: bool): (r: seq<RelPath>)
    ensures !(Lookup(root, p).Some? && Lookup(root, p).value.Dir?) ==> r == []
    ensures forall x :: x in r ==> |x| > |p| && x[..|p|] == p && (!recursive ==> |x| == |p| + 1)
    ensures recursive && Lookup(root, p).Some? ==>
      forall rel :: rel != [] && Lookup(root, p + rel).Some? ==> p + rel in r
  {
    match Lookup(root, p)
    case Some(d) =>
      ListingBelow(p, d, recursive);
      ListingCompleteAll(root, p);
      Listing(p, d, recursive)
    case None => []
  }

  /** `ListingComplete` for every path below an existing `p`. */
  lemma ListingCompleteAll(root: Node, p: RelPath)
    requires Lookup(root, p).Some?
    ensures forall rel :: rel != [] && Lookup(root, p + rel).Some? ==> p + rel in Listing(p, Lookup(root, p).value, true)
  {
    forall rel | rel != [] && Lookup(root, p + rel).Some?
      ensures p + rel in Listing(p, Lookup(root, p).value, true)
    {
      LookupConcat(root, p, rel);
      ListingComplete(p, Lookup(root, p).value, rel);
    }
  }

  /** Every listed path lies strictly below the directory listed; without
      recursion it is one of the directory's own entries. */
  lemma {:induction false} ListingBelow(dir: RelPath, d: Node, recursive: bool)
    ensures forall x :: x in Listing(dir, d, recursive) ==>
      |x| > |dir| && x[..|dir|] == dir && (!recursive ==> |x| == |dir| + 1)
    decreases d, 1
  {
    if d.Dir? && recursive {
      SubtreesBelow(dir, d, 0);
    }
  }

  lemma {:induction false} SubtreesBelow(dir: RelPath, d: Node, i: nat)
    requires d.Dir? && i <= |d.entries|
    ensures forall x :: x in Subtrees(dir, d, i) ==> |x| > |dir| && x[..|dir|] == dir
    decreases d, 0, |d.entries| - i
  {
    if i < |d.entries| {
      var e := d.entries[i];
      var sub := dir + [e.name];
      ListingBelow(sub, e.node, true);
      SubtreesBelow(dir, d, i + 1);
      forall x | x in Listing(sub, e.node, true)
        ensures |x| > |dir| && x[..|dir|] == dir
      {
        assert x[..|sub|][..|dir|] == dir;
      }
    }
  }

  /** `rglob('*')` reaches everything below the directory: every path that
      names a node below `d` is listed. */
  lemma {:induction false} ListingComplete(dir: RelPath, d: Node, rel: RelPath)
    requires rel != [] && Lookup(d, rel).Some?
    ensures dir + rel in Listing(dir, d, true)
    decreases d, 1
  {
    var es := d.entries;
    var k :| 0 <= k < |es| && es[k].name == rel[0] && Find(es, rel[0]) == Some(es[k].node)
      by { FindFirst(es, rel[0]); }
    if |rel| == 1 {
      assert dir + rel == Children(dir, es)[k];
    } else {
      assert Lookup(d, rel) == Lookup(es[k].node, rel[1..]);
      ListingComplete(dir + [rel[0]], es[k].node, rel[1..]);
      assert dir + [rel[0]] + rel[1..] == dir + rel;
      SubtreesHold(dir, d, 0, k);
    }
  }

  /** `Find` returns the node of some entry with that name. */
  lemma {:induction false} FindFirst(es: seq<Entry>, name: string)
    requires Find(es, name).Some?
    ensures exists k :: 0 <= k < |es| && es[k].name == name && Find(es, name) == Some(es[k].node)
  {
    if es[0].name != name {
      FindFirst(es[1..], name);
      var k :| 0 <= k < |es[1..]| && es[1..][k].name == name && Find(es[1..], name) == Some(es[1..][k].node);
      assert es[k + 1] == es[1..][k];
    }
  }

  /** The listing of the `k`-th entry is part of the sub-tree listings from
      any earlier position. */
  lemma {:induction false} SubtreesHold(dir: RelPath, d: Node, i: nat, k: nat)
    requires d.Dir? && i <= k < |d.entries|
    ensures forall x :: x in Listing(dir + [d.entries[k].name], d.entries[k].node, true) ==>
      x in Subtrees(dir, d, i)
    decreases k - i
  {
    if i < k {
      SubtreesHold(dir, d, i + 1, k);
    }
  }

  /** The position of the last `c` in `s`, or -1: `s.rfind(c)`. */
  function RFind(s: string, c: char): (i: int)
    ensures -1 <= i < |s|
    ensures i >= 0 ==> s[i] == c
    ensures forall j :: i < j < |s| ==> s[j] != c
  {
    if s == [] then -1
    else if s[|s| - 1] == c then |s| - 1
    else RFind(s[..|s| - 1], c)
  }

  /** `Path.suffix`: from the last dot on, unless that dot is the first
      or the last character of the name. */
  function Suffix(name: string): (r: string)
    ensures r == "" || (2 <= |r| < |name| && EndsWith(name, r) && r[0] == '.' && '.' !in r[1..])
  {
    var i := RFind(name, '.');
    if 0 < i < |name| - 1 then
      name[i..]
    else ""
  }

  /** `Path.suffixes`: none when the name ends in a dot; otherwise, after
      the leading dots are stripped, every dot-separated part but the
      first, each with its dot. */
  function Suffixes(name: string): (r: seq<string>)
    ensures EndsWith(name, ".") ==> r == []
    ensures '.' !in LStripChars(name, ".") ==> r == []
    ensures forall i :: 0 <= i < |r| ==> |r[i]| >= 1 && r[i][0] == '.' && '.' !in r[i][1..]
  {
    if EndsWith(name, ".") then []
    else Dotted(SplitOn(LStripChars(name, "."), '.')[1..])
  }

  /** `['.' + part for part in parts]` */
  function Dotted(parts: seq<string>): (r: seq<string>)
    ensures |r| == |parts|
    ensures forall i :: 0 <= i < |parts| ==> r[i] == "." + parts[i]
  {
    if parts == [] then [] else ["." + parts[0]] + Dotted(parts[1..])
  }

  /** `''.join(path.suffixes)` */
  function JoinedSuffixes(name: string): (r: string)
    ensures r == "" || r[0] == '.'
    ensures EndsWith(name, r)
  {
    SuffixesTail(name);
    Concat(Suffixes(name))
  }

  /** The suffixes, joined, are the tail of the name from its first inner
      dot on. */
  lemma SuffixesTail(name: string)
    ensures var j := Concat(Suffixes(name)); (j == "" || j[0] == '.') && EndsWith(name, j)
  {
    if !EndsWith(name, ".") {
      var s := LStripChars(name, ".");
      var parts := SplitOn(s, '.');
      var j := Concat(Dotted(parts[1..]));
      assert Suffixes(name) == Dotted(parts[1..]);
      JoinedParts(parts);
      DottedStart(parts[1..]);
      TailOfTail(name, s, parts[0], j);
    }
  }

  lemma JoinedParts(parts: seq<string>)
    requires parts != []
    ensures Join(".", parts) == parts[0] + Concat(Dotted(parts[1..]))
  {
    JoinDotted(parts[0], parts[1..]);
    assert [parts[0]] + parts[1..] == parts;
  }

  lemma DottedStart(parts: seq<string>)
    ensures var j := Concat(Dotted(parts)); j == "" || j[0] == '.'
  {
    if parts != [] {
      var ds := Dotted(parts);
      assert Concat(ds) == ds[0] + Concat(ds[1..]);
    }
  }

  /** A tail of a tail is a tail. */
  lemma TailOfTail(name: string, s: string, h: string, j: string)
    requires EndsWith(name, s) && s == h + j
    ensures EndsWith(name, j)
  {
    assert s[|s| - |j|..] == j;
  }

  /** The last dot of `a + "." + b` is the one just past `a` when `b` has
      none. */
  lemma {:induction false} RFindLast(a: string, b: string)
    requires '.' !in b
    ensures RFind(a + "." + b, '.') == |a|
    decreases |b|
  {
    if b != [] {
      var b' := b[..|b| - 1];
      assert (a + "." + b)[..|a + "." + b| - 1] == a + "." + b';
      RFindLast(a, b');
    } else {
      assert (a + "." + b)[..|a|] == a;
    }
  }

  /** Dot-joined parts are the first part followed by the others, each
      with its dot. */
  lemma {:induction false} JoinDotted(stem: string, exts: seq<string>)
    ensures Join(".", [stem] + exts) == stem + Concat(Dotted(exts))
    decreases |exts|
  {
    if exts != [] {
      JoinDotted(exts[0], exts[1..]);
      assert ([stem] + exts)[1..] == [exts[0]] + exts[1..] == exts;
    } else {
      assert [stem] + exts == [stem];
    }
  }

  /** Joining splits off the last part. */
  lemma {:induction false} JoinSplitLast(parts: seq<string>)
    requires |parts| >= 2
    ensures Join(".", parts) == Join(".", parts[..|parts| - 1]) + "." + parts[|parts| - 1]
  {
    if |parts| > 2 {
      JoinSplitLast(parts[1..]);
      assert parts[1..][..|parts[1..]| - 1] == parts[..|parts| - 1][1..];
    }
  }

  /** A name made of a dot-free stem and dot-free extensions, such as
      `notes.tar.gz`, as the dot-join of its parts. */
  predicate DottedName(stem: string, exts: seq<string>) {
    && stem != [] && '.' !in stem
    && exts != [] && forall i :: 0 <= i < |exts| ==> exts[i] != [] && '.' !in exts[i]
  }

  /** The suffix of a name is the text after its last inner dot. */
  lemma SuffixAfterLastDot(front: string, last: string)
    requires front != [] && last != [] && '.' !in last
    ensures Suffix(front + "." + last) == "." + last
  {
    var name := front + "." + last;
    RFindLast(front, last);
    assert name[|front|..] == "." + last;
  }

  /** Its `suffix` is the last extension, so the extension `gz` selects
      `notes.tar.gz`. */
  lemma SuffixOfExtensions(stem: string, exts: seq<string>)
    requires DottedName(stem, exts)
    ensures Suffix(stem + Concat(Dotted(exts))) == "." + exts[|exts| - 1]
  {
    var parts := [stem] + exts;
    var init := parts[..|parts| - 1];
    JoinDotted(stem, exts);
    JoinSplitLast(parts);
    assert init[0] == stem;
    JoinFirst(init);
    SuffixAfterLastDot(Join(".", init), exts[|exts| - 1]);
  }

  /** A join is at least as long as its first part. */
  lemma JoinFirst(parts: seq<string>)
    requires parts != []
    ensures |Join(".", parts)| >= |parts[0]|
  {
  }

  /** Its `suffixes` are all the extensions, so the compound `tar.gz`
      selects `notes.tar.gz`. */
  lemma SuffixesOfExtensions(stem: string, exts: seq<string>)
    requires DottedName(stem, exts)
    ensures JoinedSuffixes(stem + Concat(Dotted(exts))) == Concat(Dotted(exts))
  {
    SuffixesOfDottedName(stem, exts);
  }

  lemma SuffixesOfDottedName(stem: string, exts: seq<string>)
    requires DottedName(stem, exts)
    ensures Suffixes(stem + Concat(Dotted(exts))) == Dotted(exts)
  {
    var name := stem + Concat(Dotted(exts));
    DottedNameParts(stem, exts);
    assert SplitOn(LStripChars(name, "."), '.')[1..] == exts;
  }

  /** A dotted name does not end with a dot, has no leading dot to strip,
      and splits back into its stem and extensions. */
  lemma DottedNameParts(stem: string, exts: seq<string>)
    requires DottedName(stem, exts)
    ensures var name := stem + Concat(Dotted(exts));
      && !EndsWith(name, ".")
      && LStripChars(name, ".") == name
      && SplitOn(name, '.') == [stem] + exts
  {
    var parts := [stem] + exts;
    assert forall i :: 0 <= i < |parts| ==> parts[i] != [] && '.' !in parts[i];
    JoinDotted(stem, exts);
    JoinedNameParts(parts);
  }

  /** The dot-join of two or more non-empty dot-free parts. */
  lemma JoinedNameParts(parts: seq<string>)
    requires |parts| >= 2
    requires forall i :: 0 <= i < |parts| ==> parts[i] != [] && '.' !in parts[i]
    ensures var name := Join(".", parts);
      && !EndsWith(name, ".")
      && LStripChars(name, ".") == name
      && SplitOn(name, '.') == parts
  {
    var name := Join(".", parts);
    var last := parts[|parts| - 1];
    JoinSplitLast(parts);
    assert name[|name| - 1] == last[|last| - 1];
    assert name[0] == parts[0][0];
    SplitJoin(parts, '.');
  }

  /** A hidden file such as `.bashrc` has neither a suffix nor suffixes. */
  lemma HiddenFileHasNoSuffix(base: string)
    requires base != [] && '.' !in base
    ensures Suffix("." + base) == ""
    ensures JoinedSuffixes("." + base) == ""
  {
    var name := "." + base;
    assert Suffix(name) == "" by {
      RFindLast("", base);
      assert "" + "." + base == name;
    }
    assert Suffixes(name) == [] by {
      assert !EndsWith(name, ".") by {
        assert name[|name| - 1] == base[|base| - 1];
      }
      assert LStripChars(name, ".") == base by {
        LStripCharsAfter(".", base, ".");
      }
      assert SplitOn(base, '.') == [base];
    }
  }
}
