/** The tag parser of the dotfile templates: a registry of handlers keyed
    by a normalised function name, a parser that pops the tag name from the
    caller's token list and dispatches on it, and the two shipped handlers,
    `config` (a dotted-path walk through the loaded configuration) and
    `root` (the project root as a string). */
module Tag {
  import opened Py
  import opened PyText
  import opened ConfigValue
  import Config
  import PathModel
  import ServicesConsts

  /** `TagError('key invalid')` */
  const KeyInvalid := TagError("key invalid")

  /** `TagError(f"tag '{tag}' not supported")` */
  function NotSupported(tag: string): Error {
    TagError("tag '" + tag + "' not supported")
  }

  /** The two handlers the module registers; a handler is known by the
      `__name__` of its function. */
  datatype HandlerKind = ConfigHandler | RootHandler
  datatype Handler = Handler(funcName: string, kind: HandlerKind)

  const ConfigFunc := Handler("_config", ConfigHandler)
  const RootFunc := Handler("_root", RootHandler)

  /** `func.__name__.lstrip('_').lower()` */
  function RegistryName(funcName: string): string {
    Lower(LStripChars(funcName, "_"))
  }

  /** What the handlers read besides their arguments: the files
      `config.load()` reads (with `CONFIG_GLOBAL` and `CONFIG_USER`) and
      `ROOT_STR`. */
  datatype Env = Env(files: Config.Files, configGlobal: string, configUser: string, rootStr: string)

  /** The environment of the shipped modules: `CONFIG_GLOBAL`,
      `CONFIG_USER` (named by their POSIX form) and `ROOT_STR` are all
      derived from where the package lies and the home directory; only
      the contents of the files are free. */
  function ShippedEnv(files: Config.Files, file: PathModel.AbsPath, home: PathModel.AbsPath): Env {
    var l := ServicesConsts.Locations(file, home);
    Env(files, PathModel.AsPosix(l.configGlobal), PathModel.AsPosix(l.configUser), ServicesConsts.RootString(file, home))
  }

  /** One segment of the `_config` walk: a string value cannot be entered;
      otherwise the segment is tried as it is, then as `int(segment)`. A
      missing key, an index out of range and a segment that is not an
      integer are all `key invalid`; subscripting `None`, a boolean or a
      number with an integer raises a `TypeError` the handler does not
      catch. */
  function Step(v: Value, seg: string): (r: Result<Value>)
    ensures v.VStr? ==> r == Err(KeyInvalid)
    ensures v.VDict? && HasKey(v.entries, KStr(seg)) ==> r == Ok(Find(v.entries, KStr(seg)).value)
    ensures ParseInt(seg).None? && !(v.VDict? && HasKey(v.entries, KStr(seg))) ==> r == Err(KeyInvalid)
  {
    match v
    case VStr(_) => Err(KeyInvalid)
    case VDict(e) =>
      if HasKey(e, KStr(seg)) then Ok(Find(e, KStr(seg)).value)
      else (
        match ParseInt(seg)
        case None => Err(KeyInvalid)
        case Some(n) => if HasKey(e, KInt(n)) then Ok(Find(e, KInt(n)).value) else Err(KeyInvalid))
    case VList(items) => (
      match ParseInt(seg)
      case None => Err(KeyInvalid)
      case Some(n) =>
        // Python indexing: a negative index counts from the end
        if -|items| <= n < |items| then Ok(items[if n < 0 then n + |items| else n])
        else Err(KeyInvalid))
    case _ => (
      match ParseInt(seg)
      case None => Err(KeyInvalid)
      case Some(_) => Err(TypeError))
  }

  /** The walk over all segments. */
  function Resolve(v: Value, segs: seq<string>): Result<Value>
    decreases |segs|
  {
    if segs == [] then Ok(v)
    else
      var next :- Step(v, segs[0]);
      Resolve(next, segs[1..])
  }

  /** The `for i in key.split('.')` loop of `_config`, reassigning `value`
      segment by segment. */
  method Walk(v: Value, key: string) returns (r: Result<Value>)
    ensures r == Resolve(v, SplitOn(key, '.'))
  {
    var segs := SplitOn(key, '.');
    var value := v;
    var i := 0;
    while i < |segs|
      invariant 0 <= i <= |segs|
      invariant Resolve(v, segs) == Resolve(value, segs[i..])
    {
      var s := Step(value, segs[i]);
      assert segs[i..][1..] == segs[i + 1..];
      if s.Err? {
        return Err(s.error);
      }
      value := s.value;
      i := i + 1;
    }
    return Ok(value);
  }

  /** `_config(key, *_)`: a call without a key is a `TypeError`; the
      configuration is loaded afresh, then walked; further arguments are
      ignored. */
  function ConfigTag(args: seq<string>, env: Env): (r: Result<Value>)
    ensures args == [] ==> r == Err(TypeError)
    ensures args != [] && Config.LoadOutcome(env.files, env.configGlobal, env.configUser).Some? ==>
      r == Err(Config.LoadOutcome(env.files, env.configGlobal, env.configUser).value)
    ensures r.Ok? ==> Config.LoadOutcome(env.files, env.configGlobal, env.configUser).None?
    ensures var data := Config.LoadedData(env.files, env.configGlobal, env.configUser);
      args != [] && '.' !in args[0] && Config.LoadOutcome(env.files, env.configGlobal, env.configUser).None?
      ==> r == Step(VDict(data), args[0])
  {
    if args == [] then Err(TypeError)
    else
      var snapshot :- Config.Snapshot(env.files, env.configGlobal, env.configUser);
      ResolveUndottedKey(snapshot, args[0]);
      Resolve(snapshot, SplitOn(args[0], '.'))
  }

  /** A key without a dot is one segment: one step of the walk. */
  lemma ResolveUndottedKey(v: Value, key: string)
    ensures '.' !in key ==> Resolve(v, SplitOn(key, '.')) == Step(v, key)
  {
    if '.' !in key {
      assert SplitOn(key, '.') == [key];
      assert [key][1..] == [];
    }
  }

  /** `handler(*args)` */
  function Call(h: Handler, args: seq<string>, env: Env): Result<Value> {
    match h.kind
    case ConfigHandler => ConfigTag(args, env)
    case RootHandler => Ok(VStr(env.rootStr))   // `_root(*_)` ignores its arguments
  }

  /** `tagparse(tokens)` as a value: the first token names the tag and the
      rest are its arguments; an empty list fails at the `pop`. */
  function Evaluate(registry: map<string, Handler>, tokens: seq<string>, env: Env): (r: Result<Value>)
    ensures tokens == [] ==> r == Err(IndexError)
    ensures tokens != [] && tokens[0] !in registry ==> r == Err(NotSupported(tokens[0]))
    ensures tokens != [] && tokens[0] in registry && registry[tokens[0]].kind == RootHandler ==>
      r == Ok(VStr(env.rootStr))
    ensures tokens != [] && tokens[0] in registry && registry[tokens[0]].kind == ConfigHandler ==>
      r == ConfigTag(tokens[1..], env)
  {
    if tokens == [] then Err(IndexError)
    else if tokens[0] in registry then Call(registry[tokens[0]], tokens[1..], env)
    else Err(NotSupported(tokens[0]))
  }

  /** `tagparse_s(tokens)`: `str()` of the handler's result. */
  function EvaluateStr(registry: map<string, Handler>, tokens: seq<string>, env: Env): Result<string> {
    var v :- Evaluate(registry, tokens, env);
    Ok(Str(v))
  }

  /** A Python `list[str]` shared by reference between its owner and the
      parser that pops from it. */
  class TokenList {
    var items: seq<string>

    constructor(items: seq<string>)
      ensures this.items == items
    {
      this.items := items;
    }
  }

  /** The class-level `TagParser.registry`. */
  class TagRegistry {
    var registry: map<string, Handler>

    constructor()
      ensures registry == map[]
    {
      registry := map[];
    }

    /** `TagParser.register(func)`: stores the handler under its
        normalised name, replacing any handler already there, and hands the
        same handler back. */
    method Register(h: Handler) returns (r: Handler)
      modifies this
      ensures registry == old(registry)[RegistryName(h.funcName) := h]
      ensures r == h
    {
      registry := registry[RegistryName(h.funcName) := h];
      r := h;
    }
  }

  /** Importing the module: `_config` and `_root` are registered. */
  method DefaultRegistry() returns (reg: TagRegistry)
    ensures fresh(reg)
    ensures reg.registry == map["config" := ConfigFunc, "root" := RootFunc]
  {
    reg := new TagRegistry();
    var c := reg.Register(ConfigFunc);
    var r := reg.Register(RootFunc);
    HandlerNames();
  }

  /** A parser holds the tag name and, as its arguments, the very list it
      was built from, minus the name. */
  class TagParser {
    const tag: string
    const args: TokenList

    /** `TagParser(tokens)` on a non-empty list: `tokens.pop(0)`. The empty
        list raises `IndexError` at the pop; `TagParse` models that case. */
    constructor(tokens: TokenList)
      requires tokens.items != []
      modifies tokens
      ensures tag == old(tokens.items)[0]
      ensures args == tokens && tokens.items == old(tokens.items)[1..]
    {
      tag := tokens.items[0];
      args := tokens;
      tokens.items := tokens.items[1..];
    }

    /** `parse()`: the tag name is looked up exactly as given. */
    method Parse(reg: TagRegistry, env: Env) returns (r: Result<Value>)
      ensures r == if tag in reg.registry then Call(reg.registry[tag], args.items, env)
                   else Err(NotSupported(tag))
    {
      if tag in reg.registry {
        var h := reg.registry[tag];
        match h.kind {
          case ConfigHandler =>
            if args.items == [] {
              return Err(TypeError);
            }
            var snapshot := Config.Snapshot(env.files, env.configGlobal, env.configUser);
            if snapshot.Err? {
              return Err(snapshot.error);
            }
            r := Walk(snapshot.value, args.items[0]);
          case RootHandler =>
            r := Ok(VStr(env.rootStr));
        }
      } else {
        r := Err(NotSupported(tag));
      }
    }
  }

  /** `tagparse(tokens)`: builds a parser (the caller's list loses its first
      token) and parses. */
  method TagParse(tokens: TokenList, reg: TagRegistry, env: Env) returns (r: Result<Value>)
    modifies tokens
    ensures tokens.items == if old(tokens.items) == [] then [] else old(tokens.items)[1..]
    ensures r == Evaluate(reg.registry, old(tokens.items), env)
  {
    if tokens.items == [] {
      return Err(IndexError);
    }
    var p := new TagParser(tokens);
    r := p.Parse(reg, env);
  }

  /** `tagparse_s(tokens)` */
  method TagParseStr(tokens: TokenList, reg: TagRegistry, env: Env) returns (r: Result<string>)
    modifies tokens
    ensures tokens.items == if old(tokens.items) == [] then [] else old(tokens.items)[1..]
    ensures r == EvaluateStr(reg.registry, old(tokens.items), env)
  {
    var v := TagParse(tokens, reg, env);
    r := if v.Err? then Err(v.error) else Ok(Str(v.value));
  }

  // Properties of the specification.

  /** The two shipped handlers register as `config` and `root`. */
  lemma HandlerNames()
    ensures RegistryName("_config") == "config"
    ensures RegistryName("_root") == "root"
  {
    UnderscoredName("config");
    assert "_" + "config" == "_config";
    UnderscoredName("root");
    assert "_" + "root" == "_root";
  }

  /** A lower-case name behind one underscore registers as itself. */
  lemma UnderscoredName(name: string)
    requires name != [] && name[0] != '_'
    requires forall k :: 0 <= k < |name| ==> !('A' <= name[k] <= 'Z')
    ensures RegistryName("_" + name) == name
  {
    UnderscoresDropped("_", name);
    LowerKeeps(name);
  }

  /** The registry key drops every leading underscore and lower-cases. */
  lemma UnderscoresDropped(underscores: string, name: string)
    requires forall k :: 0 <= k < |underscores| ==> underscores[k] == '_'
    requires name == [] || name[0] != '_'
    ensures RegistryName(underscores + name) == Lower(name)
  {
    LStripCharsAfter(underscores, name, "_");
  }

  /** For example `__Root` registers as `root`. */
  lemma RegistryNameNormalises()
    ensures RegistryName("__Root") == "root"
  {
    UnderscoresDropped("__", "Root");
    assert "__" + "Root" == "__Root";
    assert Lower("Root") == "root" by {
      var l := Lower("Root");
      assert l[0] == 'r' && l[1] == 'o' && l[2] == 'o' && l[3] == 't';
    }
  }

  /** Lookup does not normalise: with the default registry, `ROOT` and
      `_root` are unknown tags, and the error names the tag as written. */
  lemma LookupIsExact(env: Env)
    ensures Evaluate(map["config" := ConfigFunc, "root" := RootFunc], ["ROOT"], env)
      == Err(TagError("tag 'ROOT' not supported"))
    ensures Evaluate(map["config" := ConfigFunc, "root" := RootFunc], ["_root", "x"], env)
      == Err(TagError("tag '_root' not supported"))
  {
    var reg := map["config" := ConfigFunc, "root" := RootFunc];
    assert "ROOT"[0] != "root"[0] && "ROOT"[0] != "config"[0];
    assert "ROOT" !in reg;
    assert "_root"[0] != "root"[0] && "_root"[0] != "config"[0];
    assert "_root" !in reg;
    assert "tag '" + "ROOT" + "' not supported" == "tag 'ROOT' not supported";
    assert "tag '" + "_root" + "' not supported" == "tag '_root' not supported";
  }

  /** Every failure of the parser is a `TagError` except three: the empty
      token list (`IndexError`), `config` without a key or descending into a
      non-string scalar with an integer segment (`TypeError`), and a
      configuration file that cannot be loaded. */
  lemma {:induction false} ResolveErrors(v: Value, segs: seq<string>)
    ensures Resolve(v, segs).Err? ==>
      Resolve(v, segs).error == KeyInvalid || Resolve(v, segs).error == TypeError
    decreases |segs|
  {
    if segs != [] {
      var s := Step(v, segs[0]);
      if s.Ok? {
        ResolveErrors(s.value, segs[1..]);
      }
    }
  }

  /** A string value rejects any further segment. */
  lemma StringRejectsTraversal(s: string, segs: seq<string>)
    requires segs != []
    ensures Resolve(VStr(s), segs) == Err(KeyInvalid)
  {
  }

  /** The segment is tried literally before as an integer: in a mapping that
      has both `'1'` and `1`, the segment `1` finds the string key. */
  lemma LiteralBeforeInteger(a: Value, b: Value)
    ensures Step(VDict([(KInt(1), a), (KStr("1"), b)]), "1") == Ok(b)
  {
    var e := [(KInt(1), a), (KStr("1"), b)];
    assert e[1..] == [(KStr("1"), b)];
    assert Find(e, KStr("1")) == Some(b);
  }

  /** The integer retry indexes sequences the Python way: `-k` is the k-th
      item from the end. */
  lemma NegativeIndexFromEnd(items: seq<Value>, k: nat)
    requires 1 <= k <= |items|
    ensures Step(VList(items), "-" + NatToDecimal(k)) == Ok(items[|items| - k])
  {
    ParseNegDecimal(k);
    StepIndex(items, "-" + NatToDecimal(k), -(k as int));
  }

  /** A segment that reads as an index in range selects that item. */
  lemma StepIndex(items: seq<Value>, seg: string, n: int)
    requires ParseInt(seg) == Some(n) && -|items| <= n < |items|
    ensures Step(VList(items), seg) == Ok(items[if n < 0 then n + |items| else n])
  {
  }

  /** An index of `len` or beyond is `key invalid`. */
  lemma IndexPastEnd(items: seq<Value>, k: nat)
    requires k >= |items|
    ensures Step(VList(items), NatToDecimal(k)) == Err(KeyInvalid)
  {
    ParseDecimal(k);
  }

  /** One step of the walk never reaches a mapping key that contains `.`:
      inserting such a key anywhere in the mapping changes the step of no
      segment without `.`, and `key.split('.')` yields only such segments. */
  lemma StepIgnoresDottedKey(e1: seq<(Key, Value)>, e2: seq<(Key, Value)>, k: string, x: Value, seg: string)
    requires '.' in k && '.' !in seg
    ensures Step(VDict(e1 + [(KStr(k), x)] + e2), seg) == Step(VDict(e1 + e2), seg)
  {
    assert seg != k;
    FindInsertOther(e1, e2, KStr(k), x, KStr(seg));
    var p := ParseInt(seg);
    if p.Some? {
      FindInsertOther(e1, e2, KStr(k), x, KInt(p.value));
    }
    StepSameEntries(e1 + [(KStr(k), x)] + e2, e1 + e2, seg);
  }

  /** Inserting a key that contains `.` anywhere in the top-level mapping
      changes the result of no dotted path. */
  lemma DottedKeyUnreachable(e1: seq<(Key, Value)>, e2: seq<(Key, Value)>, k: string, x: Value, key: string)
    requires '.' in k
    ensures Resolve(VDict(e1 + [(KStr(k), x)] + e2), SplitOn(key, '.')) == Resolve(VDict(e1 + e2), SplitOn(key, '.'))
  {
    var segs := SplitOn(key, '.');
    StepIgnoresDottedKey(e1, e2, k, x, segs[0]);
  }

  /** `Step` into a mapping depends only on what the segment and its
      integer reading find there. */
  lemma StepSameEntries(e1: seq<(Key, Value)>, e2: seq<(Key, Value)>, seg: string)
    requires Find(e1, KStr(seg)) == Find(e2, KStr(seg))
    requires ParseInt(seg).Some? ==> Find(e1, KInt(ParseInt(seg).value)) == Find(e2, KInt(ParseInt(seg).value))
    ensures Step(VDict(e1), seg) == Step(VDict(e2), seg)
  {
    if !HasKey(e1, KStr(seg)) {
      assert !HasKey(e2, KStr(seg));
      match ParseInt(seg)
      case None =>
      case Some(n) =>
        assert HasKey(e1, KInt(n)) == HasKey(e2, KInt(n));
    }
  }

  lemma {:induction false} FindInsertOther(e1: seq<(Key, Value)>, e2: seq<(Key, Value)>, k: Key, x: Value, other: Key)
    requires other != k
    ensures Find(e1 + [(k, x)] + e2, other) == Find(e1 + e2, other)
  {
    if e1 == [] {
      assert [(k, x)] + e2 == e1 + [(k, x)] + e2;
      assert ([(k, x)] + e2)[1..] == e2;
      assert e1 + e2 == e2;
    } else {
      assert (e1 + [(k, x)] + e2)[1..] == e1[1..] + [(k, x)] + e2;
      assert (e1 + e2)[1..] == e1[1..] + e2;
      FindInsertOther(e1[1..], e2, k, x, other);
    }
  }

  /** A key the walk can use: anything but a string containing `.`. */
  predicate Reachable(k: Key) {
    !(k.KStr? && '.' in k.s)
  }

  /** `v` with every mapping entry under a key that contains `.` removed,
      at every depth. */
  function Undotted(v: Value): Value
    decreases v, 1
  {
    match v
    case VList(items) => VList(UndottedItems(items))
    case VDict(e) => VDict(UndottedEntries(e))
    case _ => v
  }

  function UndottedItems(items: seq<Value>): (r: seq<Value>)
    decreases items, 0
    ensures |r| == |items|
    ensures forall i :: 0 <= i < |items| ==> r[i] == Undotted(items[i])
  {
    if items == [] then [] else [Undotted(items[0])] + UndottedItems(items[1..])
  }

  function UndottedEntries(e: seq<(Key, Value)>): (r: seq<(Key, Value)>)
    decreases e, 0
  {
    if e == [] then []
    else
      var (k, x) := e[0];
      assert x < e[0];
      if Reachable(k) then [(k, Undotted(x))] + UndottedEntries(e[1..])
      else UndottedEntries(e[1..])
  }

  function UndottedResult(r: Result<Value>): Result<Value> {
    match r
    case Ok(v) => Ok(Undotted(v))
    case Err(err) => Err(err)
  }

  /** Removing the dotted keys keeps every other key and what it holds,
      less its own dotted keys. */
  lemma {:induction false} FindUndotted(e: seq<(Key, Value)>, k: Key)
    requires Reachable(k)
    ensures HasKey(UndottedEntries(e), k) == HasKey(e, k)
    ensures HasKey(e, k) ==> Find(UndottedEntries(e), k).value == Undotted(Find(e, k).value)
  {
    if e != [] {
      FindUndotted(e[1..], k);
    }
  }

  /** One step over a segment without `.` commutes with removing the
      dotted keys. */
  lemma StepUndotted(v: Value, seg: string)
    requires '.' !in seg
    ensures Step(Undotted(v), seg) == UndottedResult(Step(v, seg))
  {
    match v
    case VDict(e) => StepUndottedEntries(e, seg);
    case VList(items) => StepUndottedItems(items, seg);
    case _ =>
  }

  lemma StepUndottedEntries(e: seq<(Key, Value)>, seg: string)
    requires '.' !in seg
    ensures Step(VDict(UndottedEntries(e)), seg) == UndottedResult(Step(VDict(e), seg))
  {
    FindUndotted(e, KStr(seg));
    if ParseInt(seg).Some? {
      FindUndotted(e, KInt(ParseInt(seg).value));
    }
  }

  lemma StepUndottedItems(items: seq<Value>, seg: string)
    ensures Step(VList(UndottedItems(items)), seg) == UndottedResult(Step(VList(items), seg))
  {
  }

  /** The whole walk commutes with removing the dotted keys. */
  lemma {:induction false} ResolveUndotted(v: Value, segs: seq<string>)
    requires forall i :: 0 <= i < |segs| ==> '.' !in segs[i]
    ensures Resolve(Undotted(v), segs) == UndottedResult(Resolve(v, segs))
    decreases |segs|
  {
    if segs != [] {
      StepUndotted(v, segs[0]);
      var s := Step(v, segs[0]);
      if s.Ok? {
        ResolveUndotted(s.value, segs[1..]);
      }
    }
  }

  /** A mapping key that contains `.` is never reached, at any depth: two
      configurations that differ only in such keys give every dotted path
      the same outcome, the same error or values that differ only in such
      keys. */
  lemma DottedKeysNeverReached(v: Value, w: Value, key: string)
    requires Undotted(v) == Undotted(w)
    ensures Resolve(v, SplitOn(key, '.')).Err? <==> Resolve(w, SplitOn(key, '.')).Err?
    ensures UndottedResult(Resolve(v, SplitOn(key, '.'))) == UndottedResult(Resolve(w, SplitOn(key, '.')))
  {
    ResolveUndotted(v, SplitOn(key, '.'));
    ResolveUndotted(w, SplitOn(key, '.'));
  }

  lemma {:induction false} UndottedEntriesAppend(a: seq<(Key, Value)>, b: seq<(Key, Value)>)
    ensures UndottedEntries(a + b) == UndottedEntries(a) + UndottedEntries(b)
  {
    if a == [] {
      assert a + b == b;
    } else {
      assert (a + b)[1..] == a[1..] + b;
      UndottedEntriesAppend(a[1..], b);
    }
  }

  /** The relation of `DottedKeysNeverReached` holds for a dotted key added
      to any mapping: directly, and inside a value stored under any key. */
  lemma UndottedInsert(e1: seq<(Key, Value)>, e2: seq<(Key, Value)>, k: string, x: Value)
    requires '.' in k
    ensures Undotted(VDict(e1 + [(KStr(k), x)] + e2)) == Undotted(VDict(e1 + e2))
  {
    UndottedEntriesAppend(e1 + [(KStr(k), x)], e2);
    UndottedEntriesAppend(e1, [(KStr(k), x)]);
    UndottedEntriesAppend(e1, e2);
  }

  lemma UndottedNested(e1: seq<(Key, Value)>, e2: seq<(Key, Value)>, k: Key, x: Value, y: Value)
    requires Undotted(x) == Undotted(y)
    ensures Undotted(VDict(e1 + [(k, x)] + e2)) == Undotted(VDict(e1 + [(k, y)] + e2))
  {
    UndottedEntriesAppend(e1 + [(k, x)], e2);
    UndottedEntriesAppend(e1, [(k, x)]);
    UndottedEntriesAppend(e1 + [(k, y)], e2);
    UndottedEntriesAppend(e1, [(k, y)]);
  }

  /** For example `{a: {"b.c": 1}}` and `{a: {}}` answer every dotted path
      alike. */
  lemma NestedDottedKeyExample(key: string)
    ensures var inner := VDict([(KStr("b.c"), VInt(1))]);
      UndottedResult(Resolve(VDict([(KStr("a"), inner)]), SplitOn(key, '.')))
        == UndottedResult(Resolve(VDict([(KStr("a"), VDict([]))]), SplitOn(key, '.')))
  {
    var inner := VDict([(KStr("b.c"), VInt(1))]);
    UndottedInsert([], [], "b.c", VInt(1));
    assert [] + [(KStr("b.c"), VInt(1))] + [] == [(KStr("b.c"), VInt(1))];
    UndottedNested([], [], KStr("a"), inner, VDict([]));
    assert [] + [(KStr("a"), inner)] + [] == [(KStr("a"), inner)];
    assert [] + [(KStr("a"), VDict([]))] + [] == [(KStr("a"), VDict([]))];
    DottedKeysNeverReached(VDict([(KStr("a"), inner)]), VDict([(KStr("a"), VDict([]))]), key);
  }

  /** `_config` reads only its first argument, and `_root` none. */
  lemma ExtraArgumentsIgnored(env: Env, key: string, extra: seq<string>, rootArgs: seq<string>)
    ensures var reg := map["config" := ConfigFunc, "root" := RootFunc];
      && Evaluate(reg, ["config", key] + extra, env) == Evaluate(reg, ["config", key], env)
      && Evaluate(reg, ["root"] + rootArgs, env) == Ok(VStr(env.rootStr))
  {
    assert (["config", key] + extra)[1..][0] == key;
  }
}
