/** The values `yaml.safe_load` produces for a configuration file, as the
    tag handlers and the configuration merge see them. A mapping keeps its
    entries in insertion order, as a Python `dict` does, so that `str()` of
    a mapping and `dict.update` are modelled with their ordering. */
module ConfigValue {
  import opened Py
  import opened PyText

  /** Mapping keys: YAML scalars that load as `None`, `str` or `int`. */
  datatype Key = KNone | KStr(s: string) | KInt(i: int)

  datatype Value =
    | VNone
    | VBool(b: bool)
    | VInt(i: int)
    | VStr(s: string)
    | VList(items: seq<Value>)
    | VDict(entries: seq<(Key, Value)>)

  /** The value stored under `k`, if any (`d[k]`, `KeyError` when absent). */
  function Find(entries: seq<(Key, Value)>, k: Key): Option<Value> {
    if entries == [] then None
    else if entries[0].0 == k then Some(entries[0].1)
    else Find(entries[1..], k)
  }

  predicate HasKey(entries: seq<(Key, Value)>, k: Key) {
    Find(entries, k).Some?
  }

  /** A Python `dict` never holds a key twice. */
  predicate UniqueKeys(entries: seq<(Key, Value)>) {
    entries == [] || (!HasKey(entries[1..], entries[0].0) && UniqueKeys(entries[1..]))
  }

  /** `d[k] = v`: an existing key keeps its position, a new one goes last. */
  function Put(entries: seq<(Key, Value)>, k: Key, v: Value): (r: seq<(Key, Value)>)
    ensures Find(r, k) == Some(v)
    ensures forall k' :: k' != k ==> Find(r, k') == Find(entries, k')
    ensures UniqueKeys(entries) ==> UniqueKeys(r)
  {
    if entries == [] then [(k, v)]
    else if entries[0].0 == k then
      var r := [(k, v)] + entries[1..];
      assert r[1..] == entries[1..];
      r
    else
      var rest := Put(entries[1..], k, v);
      var r := [entries[0]] + rest;
      assert r[1..] == rest;
      r
  }

  /** `d.update(u)`: the entries of `u` are put into `d` one by one. */
  function Update(d: seq<(Key, Value)>, u: seq<(Key, Value)>): seq<(Key, Value)>
    decreases |u|
  {
    if u == [] then d
    else Update(Put(d, u[0].0, u[0].1), u[1..])
  }

  /** After `d.update(u)` a key of `u` holds `u`'s value and every other
      key holds `d`'s: the later mapping wins key by key. */
  lemma {:induction false} FindAfterUpdate(d: seq<(Key, Value)>, u: seq<(Key, Value)>, k: Key)
    requires UniqueKeys(u)
    ensures Find(Update(d, u), k) == if HasKey(u, k) then Find(u, k) else Find(d, k)
    decreases |u|
  {
    if u != [] {
      var d' := Put(d, u[0].0, u[0].1);
      FindAfterUpdate(d', u[1..], k);
    }
  }

  /** `d.update(u)` keeps a `dict`'s keys unique. */
  lemma {:induction false} UpdateUnique(d: seq<(Key, Value)>, u: seq<(Key, Value)>)
    requires UniqueKeys(d)
    ensures UniqueKeys(Update(d, u))
    decreases |u|
  {
    if u != [] {
      UpdateUnique(Put(d, u[0].0, u[0].1), u[1..]);
    }
  }

  /** What one `dict.update(x)` call leaves: the entries, and the
      exception it raised, if any. When `x` is not a mapping its items are
      put one at a time, so those put before the exception stay put. */
  datatype Applied = Applied(data: seq<(Key, Value)>, error: Option<Error>)

  /** The key a value makes in a `dict`: `True` and `False` hash and
      compare as `1` and `0`; a list or a mapping is unhashable. */
  function KeyOf(v: Value): (r: Option<Key>)
    ensures r.None? <==> v.VList? || v.VDict?
  {
    match v
    case VNone => Some(KNone)
    case VBool(b) => Some(KInt(if b then 1 else 0))
    case VInt(i) => Some(KInt(i))
    case VStr(s) => Some(KStr(s))
    case _ => None
  }

  /** A key read back as a value (iterating a mapping yields its keys). */
  function KeyValue(k: Key): (r: Value)
    ensures KeyOf(r) == Some(k)
  {
    match k
    case KNone => VNone
    case KStr(s) => VStr(s)
    case KInt(i) => VInt(i)
  }

  /** What iterating a value yields: a list's items, a string's characters
      as one-character strings, a mapping's keys; `None` for a value that
      cannot be iterated. */
  function Items(v: Value): (r: Option<seq<Value>>)
    ensures r.Some? <==> v.VList? || v.VStr? || v.VDict?
    ensures v.VStr? ==> |r.value| == |v.s| && forall k :: 0 <= k < |v.s| ==> r.value[k] == VStr([v.s[k]])
  {
    match v
    case VList(xs) => Some(xs)
    case VStr(s) => Some(seq(|s|, k requires 0 <= k < |s| => VStr([s[k]])))
    case VDict(es) => Some(seq(|es|, k requires 0 <= k < |es| => KeyValue(es[k].0)))
    case _ => None
  }

  /** An item `dict.update` accepts from a sequence: an iterable of exactly
      two elements whose first is hashable. */
  predicate IsPair(item: Value) {
    Items(item).Some? && |Items(item).value| == 2 && KeyOf(Items(item).value[0]).Some?
  }

  function PairOf(item: Value): (Key, Value)
    requires IsPair(item)
  {
    (KeyOf(Items(item).value[0]).value, Items(item).value[1])
  }

  function PairsOf(items: seq<Value>): (r: seq<(Key, Value)>)
    requires forall k :: 0 <= k < |items| ==> IsPair(items[k])
    ensures |r| == |items|
  {
    seq(|items|, k requires 0 <= k < |items| => PairOf(items[k]))
  }

  /** The exception for element `#i` when it is not a pair: an element
      that cannot be iterated or whose first element is unhashable is a
      `TypeError`, one of the wrong length a `ValueError` naming it. */
  function ItemError(item: Value, i: nat): (r: Error)
    requires !IsPair(item)
    ensures Items(item).Some? && |Items(item).value| != 2 ==> r.ValueError?
    ensures !r.ValueError? ==> r == TypeError
  {
    match Items(item)
    case None => TypeError
    case Some(xs) =>
      if |xs| != 2 then
        ValueError("dictionary update sequence element #" + NatToDecimal(i) + " has length "
                   + NatToDecimal(|xs|) + "; 2 is required")
      else TypeError
  }

  /** `dict.update` over a sequence of items, element `#i` first: each pair
      is put in turn, and the first item that is not a pair stops it. */
  function UpdatePairs(d: seq<(Key, Value)>, items: seq<Value>, i: nat): Applied
    decreases |items|
  {
    if items == [] then Applied(d, None)
    else if !IsPair(items[0]) then Applied(d, Some(ItemError(items[0], i)))
    else
      var (k, v) := PairOf(items[0]);
      UpdatePairs(Put(d, k, v), items[1..], i + 1)
  }

  /** `d.update(x)`: a mapping is merged key by key; any other iterable is
      read as a sequence of pairs; anything else is a `TypeError`. */
  function DictUpdate(d: seq<(Key, Value)>, x: Value): (r: Applied)
    ensures x.VDict? ==> r == Applied(Update(d, x.entries), None)
    ensures x.VNone? || x.VBool? || x.VInt? ==> r == Applied(d, Some(TypeError))
  {
    match x
    case VDict(e) => Applied(Update(d, e), None)
    case VList(xs) => UpdatePairs(d, xs, 0)
    case VStr(_) => UpdatePairs(d, Items(x).value, 0)
    case _ => Applied(d, Some(TypeError))
  }

  /** Items that are all pairs are put one after another, exactly as a
      mapping holding those pairs would be merged; what follows them
      carries on from the merged entries. */
  lemma {:induction false} PairsMerge(d: seq<(Key, Value)>, items: seq<Value>, rest: seq<Value>, i: nat)
    requires forall k :: 0 <= k < |items| ==> IsPair(items[k])
    ensures UpdatePairs(d, items + rest, i) == UpdatePairs(Update(d, PairsOf(items)), rest, i + |items|)
    decreases |items|
  {
    if items == [] {
      assert items + rest == rest;
    } else {
      var p := PairOf(items[0]);
      assert (items + rest)[0] == items[0];
      assert (items + rest)[1..] == items[1..] + rest;
      PairsMerge(Put(d, p.0, p.1), items[1..], rest, i + 1);
      assert PairsOf(items)[0] == p;
      assert PairsOf(items)[1..] == PairsOf(items[1..]);
    }
  }

  /** A list of pairs updates a `dict` as the mapping of those pairs does,
      and raises nothing; the empty list changes nothing. */
  lemma ListOfPairsUpdates(d: seq<(Key, Value)>, items: seq<Value>)
    requires forall k :: 0 <= k < |items| ==> IsPair(items[k])
    ensures DictUpdate(d, VList(items)) == Applied(Update(d, PairsOf(items)), None)
  {
    PairsMerge(d, items, [], 0);
    assert items + [] == items;
  }

  /** The first item that is not a pair stops the update with its own
      exception, after every pair before it has been put. */
  lemma BadItemStops(d: seq<(Key, Value)>, items: seq<Value>, bad: Value, rest: seq<Value>)
    requires forall k :: 0 <= k < |items| ==> IsPair(items[k])
    requires !IsPair(bad)
    ensures DictUpdate(d, VList(items + [bad] + rest))
         == Applied(Update(d, PairsOf(items)), Some(ItemError(bad, |items|)))
  {
    PairsMerge(d, items, [bad] + rest, 0);
    assert items + [bad] + rest == items + ([bad] + rest);
  }

  /** A non-empty string is a sequence of one-character strings, so its
      first character already has the wrong length: `ValueError`, and the
      entries are left as they were. */
  lemma StringUpdateFails(d: seq<(Key, Value)>, s: string)
    requires s != []
    ensures DictUpdate(d, VStr(s))
         == Applied(d, Some(ValueError("dictionary update sequence element #0 has length 1; 2 is required")))
  {
    var xs := Items(VStr(s)).value;
    assert xs[0] == VStr([s[0]]);
    assert |Items(xs[0]).value| == 1;
    assert NatToDecimal(0) == "0" && NatToDecimal(1) == "1";
    var msg := "dictionary update sequence element #" + "0" + " has length " + "1" + "; 2 is required";
    assert msg == "dictionary update sequence element #0 has length 1; 2 is required";
    assert ItemError(xs[0], 0) == ValueError(msg);
    assert UpdatePairs(d, xs, 0) == Applied(d, Some(ItemError(xs[0], 0)));
  }

  /** Whatever the update reads and wherever it stops, a `dict` keeps its
      keys unique. */
  lemma {:induction false} UpdatePairsUnique(d: seq<(Key, Value)>, items: seq<Value>, i: nat)
    requires UniqueKeys(d)
    ensures UniqueKeys(UpdatePairs(d, items, i).data)
    decreases |items|
  {
    if items != [] && IsPair(items[0]) {
      var (k, v) := PairOf(items[0]);
      UpdatePairsUnique(Put(d, k, v), items[1..], i + 1);
    }
  }

  lemma DictUpdateUnique(d: seq<(Key, Value)>, x: Value)
    requires UniqueKeys(d)
    ensures UniqueKeys(DictUpdate(d, x).data)
  {
    match x
    case VDict(e) => UpdateUnique(d, e);
    case VList(xs) => UpdatePairsUnique(d, xs, 0);
    case VStr(_) => UpdatePairsUnique(d, Items(x).value, 0);
    case _ =>
  }

  /** `repr()` of a string, as `'...'` (quote selection and escaping are
      not modelled). */
  function ReprStr(s: string): string {
    "'" + s + "'"
  }

  function ReprKey(k: Key): string {
    match k
    case KNone => "None"
    case KStr(s) => ReprStr(s)
    case KInt(i) => IntToDecimal(i)
  }

  /** `str()` of a value that is neither a string nor a container. */
  function ScalarText(v: Value): string
    requires !v.VStr? && !v.VList? && !v.VDict?
  {
    match v
    case VNone => "None"
    case VBool(b) => if b then "True" else "False"
    case VInt(i) => IntToDecimal(i)
  }

  /** `repr(v)` */
  function Repr(v: Value): string
    decreases v, 1
  {
    match v
    case VStr(s) => ReprStr(s)
    case VList(items) => "[" + Join(", ", ReprItems(items)) + "]"
    case VDict(entries) => "{" + Join(", ", ReprEntries(entries)) + "}"
    case _ => ScalarText(v)
  }

  function ReprItems(items: seq<Value>): (r: seq<string>)
    decreases items, 0
    ensures |r| == |items|
  {
    if items == [] then [] else [Repr(items[0])] + ReprItems(items[1..])
  }

  function ReprEntries(entries: seq<(Key, Value)>): (r: seq<string>)
    decreases entries, 0
    ensures |r| == |entries|
  {
    if entries == [] then []
    else
      var (k, x) := entries[0];
      assert x < entries[0];
      [ReprKey(k) + ": " + Repr(x)] + ReprEntries(entries[1..])
  }

  /** `str(v)`: a string is itself, a container is its `repr`. */
  function Str(v: Value): string {
    match v
    case VStr(s) => s
    case VList(_) => Repr(v)
    case VDict(_) => Repr(v)
    case _ => ScalarText(v)
  }

  predicate IsDigit(c: char) {
    '0' <= c <= '9'
  }

  /** Digits with single underscores between them, as `int()` accepts. */
  predicate DigitGroups(s: string) {
    && s != []
    && IsDigit(s[0]) && IsDigit(s[|s| - 1])
    && (forall i :: 0 <= i < |s| ==> IsDigit(s[i]) || s[i] == '_')
    && (forall i :: 0 <= i < |s| - 1 ==> s[i] == '_' ==> s[i + 1] != '_')
  }

  /** The number the digits of `s` spell, underscores skipped. */
  function DigitsValue(s: string): nat {
    if s == [] then 0
    else if IsDigit(s[|s| - 1]) then DigitsValue(s[..|s| - 1]) * 10 + (s[|s| - 1] as int - '0' as int)
    else DigitsValue(s[..|s| - 1])
  }

  /** `int(s)` on a string: surrounding whitespace, an optional sign, and
      ASCII digit groups; `None` where Python raises `ValueError`. */
  function ParseInt(s: string): Option<int> {
    var t := Strip(s);
    if t != [] && (t[0] == '-' || t[0] == '+') then
      if DigitGroups(t[1..]) then
        Some(if t[0] == '-' then 0 - DigitsValue(t[1..]) as int else DigitsValue(t[1..]) as int)
      else None
    else if DigitGroups(t) then Some(DigitsValue(t))
    else None
  }

  /** `int(str(n)) == n` */
  lemma ParseDecimal(n: nat)
    ensures ParseInt(NatToDecimal(n)) == Some(n)
  {
    var d := NatToDecimal(n);
    DecimalValue(n);
    assert Strip(d) == d by {
      assert IsDigit(d[0]) && IsDigit(d[|d| - 1]);
      StripKeeps(d);
    }
    assert !(d[0] == '-' || d[0] == '+');
  }

  /** `int('-' + str(n)) == -n` */
  lemma ParseNegDecimal(n: nat)
    ensures ParseInt("-" + NatToDecimal(n)) == Some(-(n as int))
  {
    DecimalValue(n);
    NegativeDigits(NatToDecimal(n), n);
  }

  /** A minus sign before digit groups negates their value. */
  lemma NegativeDigits(d: string, n: nat)
    requires DigitGroups(d) && DigitsValue(d) == n
    ensures ParseInt("-" + d) == Some(-(n as int))
  {
    var t := "-" + d;
    assert Strip(t) == t by {
      assert t[|t| - 1] == d[|d| - 1];
      StripKeeps(t);
    }
    assert t[0] == '-' && t[1..] == d;
  }

  lemma {:induction false} DecimalValue(n: nat)
    ensures DigitGroups(NatToDecimal(n)) && DigitsValue(NatToDecimal(n)) == n
  {
    var d := NatToDecimal(n);
    if n >= 10 {
      DecimalValue(n / 10);
      assert d[..|d| - 1] == NatToDecimal(n / 10);
    }
  }
}
