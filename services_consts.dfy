/** The project layout of the `services` generation: the root is found
    above the directory named `services`, every other location is a fixed
    child of it, and `ROOT_STR` is the root as a POSIX string without a
    drive colon. */
module ServicesConsts {
  import opened PyText
  import opened PathModel

  /** `locate_root()` with `locate()` (this file's resolved path) and
      `Path.home()` as parameters. */
  function LocateRoot(file: AbsPath, home: AbsPath): (root: AbsPath)
    ensures
      || (&& root.drive == file.drive
          && |root.parts| + 1 < |file.parts|
          && root.parts == file.parts[..|root.parts|]
          && file.parts[|root.parts|] == "services"
          && forall i :: |root.parts| < i < |file.parts| - 1 ==> file.parts[i] != "services")
      || (&& root == Child(home, ["inkutils"])
          && forall i :: 0 <= i < |file.parts| - 1 ==> file.parts[i] != "services")
  {
    AncestorRoot(file, home, "services")
  }

  /** The module's path constants. */
  datatype Layout = Layout(
    root: AbsPath,
    documentation: AbsPath,
    library: AbsPath,
    scripts: AbsPath,
    services: AbsPath,
    dotfiles: AbsPath,
    configGlobal: AbsPath,
    configUser: AbsPath)

  function Locations(file: AbsPath, home: AbsPath): Layout {
    var root := LocateRoot(file, home);
    var services := Child(root, ["services"]);
    Layout(
      root,
      Child(root, ["documentation"]),
      Child(root, ["library"]),
      Child(root, ["scripts"]),
      services,
      Child(root, ["dotfiles"]),
      Child(services, ["data", "default.yml"]),
      Child(root, ["config.yml"]))
  }

  /** `ROOT_STR`, the string the `root` tag renders. */
  function RootString(file: AbsPath, home: AbsPath): string {
    RootStr(LocateRoot(file, home))
  }

  /** The two configuration files, as POSIX strings: the defaults under
      `services/data`, the user's file directly in the root. */
  lemma ConfigFiles(file: AbsPath, home: AbsPath)
    requires LocateRoot(file, home).parts != []
    ensures var l := Locations(file, home);
      && AsPosix(l.configGlobal) == AsPosix(l.root) + "/services/data/default.yml"
      && AsPosix(l.configUser) == AsPosix(l.root) + "/config.yml"
  {
    ConfigFilesUnder(LocateRoot(file, home));
  }

  lemma ConfigFilesUnder(root: AbsPath)
    requires root.parts != []
    ensures AsPosix(Child(Child(root, ["services"]), ["data", "default.yml"])) == AsPosix(root) + "/services/data/default.yml"
    ensures AsPosix(Child(root, ["config.yml"])) == AsPosix(root) + "/config.yml"
  {
    GlobalConfigUnder(root);
    UserConfigUnder(root);
  }

  lemma GlobalConfigUnder(root: AbsPath)
    requires root.parts != []
    ensures AsPosix(Child(Child(root, ["services"]), ["data", "default.yml"])) == AsPosix(root) + "/services/data/default.yml"
  {
    assert Child(Child(root, ["services"]), ["data", "default.yml"]) == Child(root, ["services", "data", "default.yml"]) by {
      assert root.parts + ["services"] + ["data", "default.yml"] == root.parts + ["services", "data", "default.yml"];
    }
    AsPosixChild(root, ["services", "data", "default.yml"]);
    var r := AsPosix(root);
    var g := Join("/", ["services", "data", "default.yml"]);
    assert r + "/" + g == r + ("/" + g);
    GlobalConfigName();
  }

  lemma UserConfigUnder(root: AbsPath)
    requires root.parts != []
    ensures AsPosix(Child(root, ["config.yml"])) == AsPosix(root) + "/config.yml"
  {
    AsPosixChild(root, ["config.yml"]);
    var r := AsPosix(root);
    var u := Join("/", ["config.yml"]);
    assert u == "config.yml";
    assert r + "/" + u == r + ("/" + u);
  }

  /** The relative name of the defaults file, joined. */
  lemma GlobalConfigName()
    ensures "/" + Join("/", ["services", "data", "default.yml"]) == "/services/data/default.yml"
  {
    assert ["services", "data", "default.yml"][1..] == ["data", "default.yml"];
    assert ["data", "default.yml"][1..] == ["default.yml"];
    assert Join("/", ["data", "default.yml"]) == "data" + "/" + "default.yml";
    assert Join("/", ["services", "data", "default.yml"]) == "services" + "/" + "data/default.yml";
  }
}
