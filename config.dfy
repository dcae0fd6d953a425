/** The configuration store of the `services` generation: a singleton
    mapping loaded from a global defaults file and then from the user's
    file, the user's top-level keys replacing the defaults'. Files are given
    as the values `yaml.safe_load` reads from them, keyed by path; a path
    missing from that map is a file that cannot be opened. */
module Config {
  import opened Py
  import opened ConfigValue

  type Files = map<string, Value>

  /** `self.data.update(yaml.safe_load(open(p)))`: a file that cannot be
      opened changes nothing; otherwise what it holds is merged as
      `dict.update` merges it (`None` from an empty file is a `TypeError`,
      a list of pairs is put pair by pair). */
  function ApplyFile(d: seq<(Key, Value)>, files: Files, p: string): (r: Applied)
    ensures p !in files ==> r == Applied(d, Some(FileNotFoundError(p)))
    ensures p in files && files[p].VDict? ==> r == Applied(Update(d, files[p].entries), None)
    ensures p in files && (files[p].VNone? || files[p].VBool? || files[p].VInt?) ==> r == Applied(d, Some(TypeError))
  {
    if p !in files then Applied(d, Some(FileNotFoundError(p)))
    else DictUpdate(d, files[p])
  }

  /** What `data` holds after `load()`, whether or not it succeeded: it is
      cleared first, then each file is merged into it; a failure leaves in
      it whatever was put before the failure. */
  function LoadedData(files: Files, global: string, user: string): seq<(Key, Value)> {
    var g := ApplyFile([], files, global);
    if g.error.Some? then g.data else ApplyFile(g.data, files, user).data
  }

  /** The outcome of `load()`: the first error, if any. */
  function LoadOutcome(files: Files, global: string, user: string): Option<Error> {
    var g := ApplyFile([], files, global);
    if g.error.Some? then g.error else ApplyFile(g.data, files, user).error
  }

  /** `config.load()` as a value: the merged mapping, or the error. This is
      the snapshot the `config` tag walks. */
  function Snapshot(files: Files, global: string, user: string): (r: Result<Value>)
    ensures r.Ok? <==> LoadOutcome(files, global, user).None?
    ensures r.Ok? ==> r.value.VDict? && UniqueKeys(r.value.entries)
    ensures global !in files ==> r == Err(FileNotFoundError(global))
    ensures global in files && files[global].VDict? && user !in files ==> r == Err(FileNotFoundError(user))
  {
    MergedUnique(files, global, user);
    match LoadOutcome(files, global, user)
    case Some(e) => Err(e)
    case None => Ok(VDict(LoadedData(files, global, user)))
  }

  /** The merge is shallow and the user's file wins: a top-level key of the
      user's mapping holds the user's value (a nested mapping included, which
      replaces the global one whole), and any other key keeps the global
      value. */
  lemma MergedLookup(files: Files, global: string, user: string, k: Key)
    requires global in files && files[global].VDict?
    requires user in files && files[user].VDict?
    requires UniqueKeys(files[global].entries) && UniqueKeys(files[user].entries)
    ensures Snapshot(files, global, user).Ok?
    ensures var g, u := files[global].entries, files[user].entries;
      Find(Snapshot(files, global, user).value.entries, k)
        == if HasKey(u, k) then Find(u, k) else Find(g, k)
  {
    var g, u := files[global].entries, files[user].entries;
    FindAfterUpdate([], g, k);
    FindAfterUpdate(Update([], g), u, k);
  }

  /** A user's file holding an empty list (or empty string) merges nothing:
      the snapshot is the global mapping. */
  lemma EmptyUserFileKeepsGlobal(files: Files, global: string, user: string)
    requires global in files && files[global].VDict?
    requires user in files && (files[user] == VList([]) || files[user] == VStr(""))
    ensures Snapshot(files, global, user) == Ok(VDict(Update([], files[global].entries)))
  {
    assert Items(files[user]).value == [];
  }

  /** A user's file holding a non-empty string fails at its first
      character, and `data` keeps the global mapping. */
  lemma StringUserFileFails(files: Files, global: string, user: string)
    requires global in files && files[global].VDict?
    requires user in files && files[user].VStr? && files[user].s != ""
    ensures LoadOutcome(files, global, user).value.ValueError?
    ensures LoadedData(files, global, user) == Update([], files[global].entries)
  {
    StringUpdateFails(Update([], files[global].entries), files[user].s);
  }

  /** The merged mapping is a `dict`: no key twice, whatever the files hold
      and wherever the load stopped. */
  lemma MergedUnique(files: Files, global: string, user: string)
    ensures UniqueKeys(LoadedData(files, global, user))
  {
    var g := ApplyFile([], files, global);
    if global in files {
      DictUpdateUnique([], files[global]);
    }
    if user in files {
      DictUpdateUnique(g.data, files[user]);
    }
  }

  /** An instance of `Config`: a `UserDict` whose `data` is the mapping,
      and the path of the user's file. */
  class Config {
    var data: seq<(Key, Value)>
    var path: string

    constructor(path: string)
      ensures data == [] && this.path == path
    {
      data := [];
      this.path := path;
    }

    /** `load()`: clears `data`, then applies the global file and the
        user's file in that order; returns the instance itself. */
    method Load(files: Files, global: string) returns (r: Result<Config>)
      modifies this
      ensures path == old(path)
      ensures data == LoadedData(files, global, path)
      ensures r == (match LoadOutcome(files, global, path)
                    case Some(e) => Err(e)
                    case None => Ok(this))
    {
      data := [];
      var g := ApplyFile(data, files, global);
      data := g.data;
      if g.error.Some? {
        return Err(g.error.value);
      }
      var u := ApplyFile(data, files, path);
      data := u.data;
      if u.error.Some? {
        return Err(u.error.value);
      }
      return Ok(this);
    }
  }

  /** The class object: its private `__instance` and the two module
      constants `CONFIG_GLOBAL` and `CONFIG_USER` it reads. */
  class ConfigClass {
    var instance: Config?
    const configGlobal: string
    const configUser: string

    constructor(configGlobal: string, configUser: string)
      ensures instance == null
      ensures this.configGlobal == configGlobal && this.configUser == configUser
    {
      instance := null;
      this.configGlobal := configGlobal;
      this.configUser := configUser;
    }

    /** `Config(path)`: `__new__` hands out the one instance, creating it
        on the first call, and `__init__` then resets its `data` and sets
        its path (`None` meaning `CONFIG_USER`) on every call. */
    method New(path: Option<string>) returns (c: Config)
      modifies this, instance
      ensures old(instance) != null ==> c == old(instance)
      ensures old(instance) == null ==> fresh(c)
      ensures instance == c
      ensures c.data == []
      ensures c.path == if path.None? then configUser else path.value
    {
      if instance == null {
        instance := new Config(configUser);
      }
      c := instance;
      c.data := [];
      c.path := if path.None? then configUser else path.value;
    }

    /** Module-level `load(path)`: `Config(path).load()`. */
    method LoadConfig(path: Option<string>, files: Files) returns (r: Result<Config>)
      modifies this, instance
      ensures instance != null
      ensures old(instance) != null ==> instance == old(instance)
      ensures old(instance) == null ==> fresh(instance)
      ensures instance.path == (if path.None? then configUser else path.value)
      ensures instance.data == LoadedData(files, configGlobal, instance.path)
      ensures r == (match LoadOutcome(files, configGlobal, instance.path)
                    case Some(e) => Err(e)
                    case None => Ok(instance))
    {
      var c := New(path);
      r := c.Load(files, configGlobal);
    }
  }

  /** Two constructions in a row give the same object, and the second one
      empties what the first one loaded. */
  method SingletonShared(cls: ConfigClass, files: Files) returns (a: Result<Config>, b: Config)
    modifies cls, cls.instance
    ensures cls.instance == b
    ensures a.Ok? ==> a.value == b
    ensures b.data == [] && b.path == "other.yml"
  {
    a := cls.LoadConfig(None, files);
    b := cls.New(Some("other.yml"));
  }
}
