/** The project layout of the `service` generation: the root is found
    above the directory named `service`, and every other location is a
    fixed child of it. */
module ServiceConsts {
  import opened PyText
  import opened PathModel

  /** `locate_root()` with `locate()` (this file's resolved path) and
      `Path.home()` as parameters. */
  function LocateRoot(file: AbsPath, home: AbsPath): (root: AbsPath)
    ensures
      || (&& root.drive == file.drive
          && |root.parts| + 1 < |file.parts|
          && root.parts == file.parts[..|root.parts|]
          && file.parts[|root.parts|] == "service"
          && forall i :: |root.parts| < i < |file.parts| - 1 ==> file.parts[i] != "service")
      || (&& root == Child(home, ["inkutils"])
          && forall i :: 0 <= i < |file.parts| - 1 ==> file.parts[i] != "service")
  {
    AncestorRoot(file, home, "service")
  }

  /** The module's path constants. */
  datatype Layout = Layout(
    root: AbsPath,
    documentation: AbsPath,
    library: AbsPath,
    script: AbsPath,
    service: AbsPath,
    template: AbsPath,
    configGlobal: AbsPath,
    configUser: AbsPath)

  function Locations(file: AbsPath, home: AbsPath): Layout {
    var root := LocateRoot(file, home);
    var service := Child(root, ["service"]);
    Layout(
      root,
      Child(root, ["documentation"]),
      Child(root, ["library"]),
      Child(root, ["script"]),
      service,
      Child(root, ["template"]),
      Child(service, ["data", "default.yml"]),
      Child(root, ["config.yml"]))
  }

  /** The two configuration files, as POSIX strings: the defaults under
      `service/data`, the user's file directly in the root. */
  lemma ConfigFiles(file: AbsPath, home: AbsPath)
    requires LocateRoot(file, home).parts != []
    ensures var l := Locations(file, home);
      && AsPosix(l.configGlobal) == AsPosix(l.root) + "/service/data/default.yml"
      && AsPosix(l.configUser) == AsPosix(l.root) + "/config.yml"
  {
    ConfigFilesUnder(LocateRoot(file, home));
  }

  lemma ConfigFilesUnder(root: AbsPath)
    requires root.parts != []
    ensures AsPosix(Child(Child(root, ["service"]), ["data", "default.yml"])) == AsPosix(root) + "/service/data/default.yml"
    ensures AsPosix(Child(root, ["config.yml"])) == AsPosix(root) + "/config.yml"
  {
    GlobalConfigUnder(root);
    UserConfigUnder(root);
  }

  lemma GlobalConfigUnder(root: AbsPath)
    requires root.parts != []
    ensures AsPosix(Child(Child(root, ["service"]), ["data", "default.yml"])) == AsPosix(root) + "/service/data/default.yml"
  {
    assert Child(Child(root, ["service"]), ["data", "default.yml"]) == Child(root, ["service", "data", "default.yml"]) by {
      assert root.parts + ["service"] + ["data", "default.yml"] == root.parts + ["service", "data", "default.yml"];
    }
    AsPosixChild(root, ["service", "data", "default.yml"]);
    var r := AsPosix(root);
    var g := Join("/", ["service", "data", "default.yml"]);
    assert r + "/" + g == r + ("/" + g);
    GlobalConfigName();
  }

  lemma UserConfigUnder(root: AbsPath)
    requires root.parts != []
    ensures AsPosix(Child(root, ["config.yml"])) == AsPosix(root) + "/config.yml"
  {
    AsPosixChild(root, ["config.yml"]);
    var r := AsPosix(root);
    var u := Join("/", ["config.yml"]);
    assert u == "config.yml";
    assert r + "/" + u == r + ("/" + u);
  }

  /** The relative name of the defaults file, joined. */
  lemma GlobalConfigName()
    ensures "/" + Join("/", ["service", "data", "default.yml"]) == "/service/data/default.yml"
  {
    assert ["service", "data", "default.yml"][1..] == ["data", "default.yml"];
    assert ["data", "default.yml"][1..] == ["default.yml"];
    assert Join("/", ["data", "default.yml"]) == "data" + "/" + "default.yml";
    assert Join("/", ["service", "data", "default.yml"]) == "service" + "/" + "data/default.yml";
  }
}
