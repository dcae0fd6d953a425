/** Absolute `pathlib` paths as a drive (empty on POSIX, `C:` on Windows)
    and a list of components below the root, with the operations the
    constant modules use: `name`, `parents`, `/` and `as_posix()`. */
module PathModel {
  import opened PyText
  import opened Py

  datatype AbsPath = AbsPath(drive: string, parts: seq<string>)

  /** `p / 'a/b'`, the relative part given by its components. */
  function Child(p: AbsPath, names: seq<string>): AbsPath {
    AbsPath(p.drive, p.parts + names)
  }

  /** `p.as_posix()`: the drive, then `/`, then the components joined by `/`. */
  function AsPosix(p: AbsPath): string {
    p.drive + "/" + Join("/", p.parts)
  }

  /** The position of the nearest ancestor among `parts[..j]` named
      `marker`, searching from `parts[j - 1]` towards the root: the loop over
      `Path.parents` with its early return. */
  function NearestNamed(parts: seq<string>, marker: string, j: nat): (m: Option<nat>)
    requires j <= |parts|
    ensures m.Some? ==> m.value < j && parts[m.value] == marker
    ensures m.Some? ==> forall i :: m.value < i < j ==> parts[i] != marker
    ensures m.None? ==> forall i :: 0 <= i < j ==> parts[i] != marker
  {
    if j == 0 then None
    else if parts[j - 1] == marker then Some(j - 1)
    else NearestNamed(parts, marker, j - 1)
  }

  /** `locate_root()`: the parent of the nearest proper ancestor of `file`
      whose name is `marker`, or `home/'inkutils'` when there is none. The
      file's own name is not examined, and the root's name is empty. */
  function AncestorRoot(file: AbsPath, home: AbsPath, marker: string): (root: AbsPath)
    requires marker != ""
    ensures
      || (&& root.drive == file.drive
          && |root.parts| + 1 < |file.parts|
          && root.parts == file.parts[..|root.parts|]
          && file.parts[|root.parts|] == marker
          && forall i :: |root.parts| < i < |file.parts| - 1 ==> file.parts[i] != marker)
      || (&& root == Child(home, ["inkutils"])
          && forall i :: 0 <= i < |file.parts| - 1 ==> file.parts[i] != marker)
  {
    if file.parts == [] then Child(home, ["inkutils"])
    else
      match NearestNamed(file.parts, marker, |file.parts| - 1)
      case Some(m) => AbsPath(file.drive, file.parts[..m])
      case None => Child(home, ["inkutils"])
  }

  /** `IndexOf` finds a character in the first part of a concatenation when
      it occurs there. */
  lemma {:induction false} IndexOfPrefix(a: string, b: string, c: char)
    requires c in a
    ensures c in a + b && IndexOf(a + b, c) == IndexOf(a, c)
  {
    assert (a + b)[0] == a[0];
    if a[0] != c {
      assert (a + b)[1..] == a[1..] + b;
      IndexOfPrefix(a[1..], b, c);
    }
  }

  /** `ROOT_STR`: with a drive, `'/'` followed by the POSIX form with its
      first `:` removed; without one, the POSIX form. */
  function RootStr(root: AbsPath): (r: string)
    ensures r != [] && r[0] == '/'
    ensures root.drive == "" ==> r == AsPosix(root)
    ensures ':' in root.drive ==> EndsWith(r, "/" + Join("/", root.parts))
  {
    var rest := "/" + Join("/", root.parts);
    assert AsPosix(root) == root.drive + rest;
    if root.drive != "" then
      ColonInDrive(root.drive, rest);
      "/" + RemoveFirst(root.drive + rest, ':')
    else
      assert AsPosix(root)[0] == '/';
      AsPosix(root)
  }

  /** The first `:` of a drive followed by the rest of a path is the
      drive's own, so removing it leaves the rest whole. */
  lemma ColonInDrive(drive: string, rest: string)
    ensures ':' in drive ==> EndsWith("/" + RemoveFirst(drive + rest, ':'), rest)
  {
    if ':' in drive {
      IndexOfPrefix(drive, rest, ':');
      var k := IndexOf(drive, ':');
      assert (drive + rest)[k + 1..] == drive[k + 1..] + rest;
      var r := "/" + RemoveFirst(drive + rest, ':');
      assert r == "/" + drive[..k] + drive[k + 1..] + rest;
      assert r[|r| - |rest|..] == rest;
    }
  }

  /** A drive such as `C:` loses only its colon and keeps its letter; the
      components are not touched, even when they hold a colon. */
  lemma RootStrOfDrive(root: AbsPath)
    requires ':' in root.drive
    ensures RootStr(root) == "/" + RemoveFirst(root.drive, ':') + "/" + Join("/", root.parts)
  {
    var rest := "/" + Join("/", root.parts);
    assert AsPosix(root) == root.drive + rest;
    IndexOfPrefix(root.drive, rest, ':');
    var k := IndexOf(root.drive, ':');
    assert (root.drive + rest)[..k] == root.drive[..k];
    assert (root.drive + rest)[k + 1..] == root.drive[k + 1..] + rest;
  }

  /** Without a drive `ROOT_STR` is the path's POSIX form: `/` and the
      components joined by `/`. */
  lemma RootStrNoDrive(root: AbsPath)
    requires root.drive == ""
    ensures RootStr(root) == "/" + Join("/", root.parts)
  {
  }

  /** `as_posix()` of a child is its parent's followed by `/` and the new
      components, for a parent other than the root. */
  lemma {:induction false} AsPosixChild(p: AbsPath, names: seq<string>)
    requires p.parts != [] && names != []
    ensures AsPosix(Child(p, names)) == AsPosix(p) + "/" + Join("/", names)
  {
    JoinAppend(p.parts, names);
  }

  lemma {:induction false} JoinAppend(a: seq<string>, b: seq<string>)
    requires a != [] && b != []
    ensures Join("/", a + b) == Join("/", a) + "/" + Join("/", b)
  {
    if |a| == 1 {
      assert (a + b)[1..] == b;
    } else {
      assert (a + b)[1..] == a[1..] + b;
      JoinAppend(a[1..], b);
    }
  }
}
