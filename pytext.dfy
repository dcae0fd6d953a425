/** The parts of Python's `str` that the modelled code relies on: the
    whitespace class shared by `str.isspace`, `str.strip` and the regular
    expression class `\s`, stripping, joining, splitting, ASCII case mapping
    and the padding used by format specs. */
module PyText {

  /** `str.isspace()` (and `\s` in a `str` pattern): bidirectional classes
      WS, B and S plus the category Zs. */
  predicate IsSpace(c: char) {
    || c == ' '
    || ('\t' <= c <= '\r')
    || ('\U{1C}' <= c <= '\U{1F}')
    || c == '\U{85}' || c == '\U{A0}' || c == '\U{1680}'
    || ('\U{2000}' <= c <= '\U{200A}')
    || c == '\U{2028}' || c == '\U{2029}' || c == '\U{202F}' || c == '\U{205F}'
    || c == '\U{3000}'
  }

  predicate AllSpace(s: string) {
    forall i :: 0 <= i < |s| ==> IsSpace(s[i])
  }

  /** `re.compile(r'\s').search(s) is not None` */
  predicate HasSpace(s: string) {
    exists i :: 0 <= i < |s| && IsSpace(s[i])
  }

  predicate StartsWith(s: string, p: string) {
    |p| <= |s| && s[..|p|] == p
  }

  predicate EndsWith(s: string, p: string) {
    |p| <= |s| && s[|s| - |p|..] == p
  }

  /** `s.rstrip()`: the longest prefix that does not end in whitespace. */
  function RStrip(s: string): (r: string)
    ensures |r| <= |s| && r == s[..|r|]
    ensures AllSpace(s[|r|..])
    ensures r == [] || !IsSpace(r[|r| - 1])
  {
    if s == [] || !IsSpace(s[|s| - 1]) then s
    else
      var r := RStrip(s[..|s| - 1]);
      assert s[|r|..] == s[..|s| - 1][|r|..] + [s[|s| - 1]];
      r
  }

  /** `s.lstrip()` */
  function LStrip(s: string): (r: string)
    ensures |r| <= |s| && r == s[|s| - |r|..]
    ensures AllSpace(s[..|s| - |r|])
    ensures r == [] || !IsSpace(r[0])
  {
    if s == [] || !IsSpace(s[0]) then s
    else LStrip(s[1..])
  }

  /** Leading whitespace in front of text that starts with a non-space is
      exactly what `lstrip` removes. */
  lemma {:induction false} LStripSpacePrefix(ws: string, b: string)
    requires AllSpace(ws)
    requires b == [] || !IsSpace(b[0])
    ensures LStrip(ws + b) == b
  {
    if ws != [] {
      assert (ws + b)[1..] == ws[1..] + b;
      LStripSpacePrefix(ws[1..], b);
    }
  }

  /** Trailing whitespace after text that ends with a non-space is exactly
      what `rstrip` removes. */
  lemma {:induction false} RStripSpaceSuffix(x: string, ws: string)
    requires AllSpace(ws)
    requires x == [] || !IsSpace(x[|x| - 1])
    ensures RStrip(x + ws) == x
    decreases |ws|
  {
    if ws == [] {
      assert x + ws == x;
    } else {
      var ws' := ws[..|ws| - 1];
      assert (x + ws)[..|x + ws| - 1] == x + ws';
      RStripSpaceSuffix(x, ws');
    }
  }

  /** `s.strip()` */
  function Strip(s: string): string {
    LStrip(RStrip(s))
  }

  /** Text that neither starts nor ends with whitespace is its own
      `strip()`. */
  lemma StripKeeps(s: string)
    requires s != [] && !IsSpace(s[0]) && !IsSpace(s[|s| - 1])
    ensures Strip(s) == s
  {
  }

  /** `s.rstrip(chars)`: removes every trailing character that occurs in
      `chars`, which is a set of characters, not a suffix. */
  function RStripChars(s: string, chars: string): (r: string)
    ensures |r| <= |s| && r == s[..|r|]
    ensures forall i :: |r| <= i < |s| ==> s[i] in chars
    ensures r == [] || r[|r| - 1] !in chars
  {
    if s == [] || s[|s| - 1] !in chars then s
    else RStripChars(s[..|s| - 1], chars)
  }

  /** `s.lstrip(chars)` */
  function LStripChars(s: string, chars: string): (r: string)
    ensures |r| <= |s| && r == s[|s| - |r|..]
    ensures forall i :: 0 <= i < |s| - |r| ==> s[i] in chars
    ensures r == [] || r[0] !in chars
  {
    if s == [] || s[0] !in chars then s
    else LStripChars(s[1..], chars)
  }

  /** `lstrip(chars)` removes a prefix made of those characters and stops
      at the first character that is not one of them. */
  lemma {:induction false} LStripCharsAfter(p: string, rest: string, chars: string)
    requires forall k :: 0 <= k < |p| ==> p[k] in chars
    requires rest == [] || rest[0] !in chars
    ensures LStripChars(p + rest, chars) == rest
  {
    if p == [] {
      assert p + rest == rest;
    } else {
      assert (p + rest)[0] == p[0];
      assert (p + rest)[1..] == p[1..] + rest;
      LStripCharsAfter(p[1..], rest, chars);
    }
  }

  /** `''.join(parts)` */
  function Concat(parts: seq<string>): string {
    if parts == [] then "" else parts[0] + Concat(parts[1..])
  }

  /** Appending a part appends its text. */
  lemma {:induction false} ConcatAppend(parts: seq<string>, x: string)
    ensures Concat(parts + [x]) == Concat(parts) + x
  {
    if parts != [] {
      assert (parts + [x])[1..] == parts[1..] + [x];
      ConcatAppend(parts[1..], x);
    }
  }

  /** `sep.join(parts)` */
  function Join(sep: string, parts: seq<string>): string {
    if parts == [] then ""
    else if |parts| == 1 then parts[0]
    else parts[0] + sep + Join(sep, parts[1..])
  }

  /** `s.split(c)` for a one-character separator: never empty, and joining
      the parts with `c` gives `s` back. */
  function SplitOn(s: string, c: char): (parts: seq<string>)
    ensures |parts| >= 1
    ensures forall i :: 0 <= i < |parts| ==> c !in parts[i]
    ensures Join([c], parts) == s
  {
    if c !in s then [s]
    else
      var k := IndexOf(s, c);
      var rest := SplitOn(s[k + 1..], c);
      assert s == s[..k] + [c] + s[k + 1..];
      [s[..k]] + rest
  }

  /** The first position of `c` in `s`: `s.index(c)`. */
  function IndexOf(s: string, c: char): (k: nat)
    requires c in s
    ensures k < |s| && s[k] == c && c !in s[..k]
  {
    if s[0] == c then 0 else 1 + IndexOf(s[1..], c)
  }

  /** `s.count(c)` */
  function CountChar(s: string, c: char): (n: nat)
    ensures n <= |s|
    ensures n == 0 <==> c !in s
  {
    if s == [] then 0
    else (if s[0] == c then 1 else 0) + CountChar(s[1..], c)
  }

  /** `''.join(s.split(c, 1))`: `s` with only its first `c` removed. */
  function RemoveFirst(s: string, c: char): (r: string)
    ensures c !in s ==> r == s
    ensures c in s ==> r == s[..IndexOf(s, c)] + s[IndexOf(s, c) + 1..]
  {
    if c in s then s[..IndexOf(s, c)] + s[IndexOf(s, c) + 1..] else s
  }

  function LowerChar(c: char): char {
    if 'A' <= c <= 'Z' then (c as int + 32) as char else c
  }

  function UpperChar(c: char): char {
    if 'a' <= c <= 'z' then (c as int - 32) as char else c
  }

  predicate IsAsciiLetter(c: char) {
    'a' <= c <= 'z' || 'A' <= c <= 'Z'
  }

  /** `s.lower()` on the ASCII letters. */
  function Lower(s: string): (r: string)
    ensures |r| == |s|
    ensures forall i :: 0 <= i < |s| ==> r[i] == LowerChar(s[i])
  {
    seq(|s|, i requires 0 <= i < |s| => LowerChar(s[i]))
  }

  /** Text with no upper-case letter is its own `lower()`. */
  lemma LowerKeeps(s: string)
    requires forall k :: 0 <= k < |s| ==> !('A' <= s[k] <= 'Z')
    ensures Lower(s) == s
  {
    assert forall k :: 0 <= k < |s| ==> Lower(s)[k] == s[k];
  }

  /** `s.upper()` on the ASCII letters. */
  function Upper(s: string): (r: string)
    ensures |r| == |s|
    ensures forall i :: 0 <= i < |s| ==> r[i] == UpperChar(s[i])
  {
    seq(|s|, i requires 0 <= i < |s| => UpperChar(s[i]))
  }

  /** `s.title()` on the ASCII letters: a letter is upper-cased when it
      starts a run of letters and lower-cased otherwise. */
  function Title(s: string): (r: string)
    ensures |r| == |s|
  {
    seq(|s|, i requires 0 <= i < |s| =>
      if i == 0 || !IsAsciiLetter(s[i - 1]) then UpperChar(s[i]) else LowerChar(s[i]))
  }

  /** `c * n` */
  function Repeat(c: string, n: nat): (r: string)
    ensures |r| == |c| * n
  {
    if n == 0 then "" else c + Repeat(c, n - 1)
  }

  /** `f'{s:<w}'`: left-justified, padded with spaces, never truncated. */
  function LJust(s: string, w: nat): (r: string)
    ensures |r| == if |s| < w then w else |s|
    ensures r[..|s|] == s && AllSpace(r[|s|..])
  {
    if |s| < w then
      var pad := Repeat(" ", w - |s|);
      assert forall i :: 0 <= i < |pad| ==> pad[i] == ' ' by { RepeatSpace(w - |s|); }
      s + pad
    else s
  }

  /** `f'{s:>w}'`: right-justified, padded with spaces, never truncated. */
  function RJust(s: string, w: nat): (r: string)
    ensures |r| == if |s| < w then w else |s|
    ensures r[|r| - |s|..] == s && AllSpace(r[..|r| - |s|])
  {
    if |s| < w then
      var pad := Repeat(" ", w - |s|);
      assert forall i :: 0 <= i < |pad| ==> pad[i] == ' ' by { RepeatSpace(w - |s|); }
      pad + s
    else s
  }

  lemma {:induction false} RepeatSpace(n: nat)
    ensures forall i :: 0 <= i < n ==> Repeat(" ", n)[i] == ' '
  {
    if n > 0 {
      RepeatSpace(n - 1);
    }
  }

  /** A one-character string repeated is that character throughout. */
  lemma {:induction false} RepeatOne(s: string, n: nat)
    ensures |s| == 1 ==> forall i :: 0 <= i < n ==> Repeat(s, n)[i] == s[0]
  {
    if |s| == 1 && n > 0 {
      RepeatOne(s, n - 1);
    }
  }

  function DigitChar(d: nat): char
    requires d < 10
  {
    ('0' as int + d) as char
  }

  /** `str(n)` for a non-negative integer. */
  function NatToDecimal(n: nat): (r: string)
    ensures |r| >= 1
    ensures forall i :: 0 <= i < |r| ==> '0' <= r[i] <= '9'
  {
    if n < 10 then [DigitChar(n)] else NatToDecimal(n / 10) + [DigitChar(n % 10)]
  }

  /** `str(i)` for any integer. */
  function IntToDecimal(i: int): string {
    if i < 0 then "-" + NatToDecimal(-i) else NatToDecimal(i)
  }
}
