/** The character-class pattern both statistics scripts run `re.findall`
    with, as a scanner that tries the alternatives in order at each
    position:

      CJK ideograph | hiragana | katakana | \w | \S | (\s*\n)+ | \s | .

    The scripts variant keeps the CJK unified block and its extensions in
    one alternative and the source variant in two; they match the same
    characters, so one scanner serves both and each variant builds its own
    group tuple from a match. */
module StatsPattern {
  import opened PyText

  /** U+4E00..U+9FFF */
  predicate IsCjkUnified(c: char) {
    '\U{4E00}' <= c <= '\U{9FFF}'
  }

  /** U+3400..U+4DBF and the supplementary-plane extension blocks. */
  predicate IsCjkExtension(c: char) {
    || ('\U{3400}' <= c <= '\U{4DBF}')
    || ('\U{20000}' <= c <= '\U{2A6DF}')
    || ('\U{2A700}' <= c <= '\U{2EBEF}')
    || ('\U{30000}' <= c <= '\U{3134F}')
  }

  /** U+3040..U+309F */
  predicate IsHiragana(c: char) {
    '\U{3040}' <= c <= '\U{309F}'
  }

  /** U+30A0..U+30FF */
  predicate IsKatakana(c: char) {
    '\U{30A0}' <= c <= '\U{30FF}'
  }

  /** Python's Unicode `\w` is given as a predicate; the only fact the
      proofs rely on is that no whitespace character is a word character. */
  predicate WordClass(isWord: char -> bool) {
    forall c :: isWord(c) ==> !IsSpace(c)
  }

  /** Which alternative matched. */
  datatype Kind =
    | IdeographMatch | ExtensionMatch | HiraganaMatch | KatakanaMatch
    | WordMatch | SymbolMatch | RunMatch | SpaceMatch | DotMatch

  /** One match: the alternative, the text it matched and the text of the
      nested `(\s*\n)` group, which only a newline run sets. */
  datatype Found = Found(kind: Kind, text: string, inner: string)

  /** The length of what `(\s*\n)+` matches at the start of `s`, 0 when it
      does not match: the longest whitespace prefix that ends in a newline.
      Backtracking reaches it in a single repetition (`\s*` first takes the
      whole whitespace prefix and gives back up to its last newline), so
      the nested group captures the same text as the whole run. */
  function RunLength(s: string): (n: nat)
    ensures n <= |s|
    ensures n > 0 ==> AllSpace(s[..n]) && s[n - 1] == '\n'
    ensures s != [] && s[0] == '\n' ==> n > 0
  {
    if s == [] || !IsSpace(s[0]) then 0
    else
      var r := RunLength(s[1..]);
      if r > 0 then
        assert s[..r + 1] == [s[0]] + s[1..][..r];
        r + 1
      else if s[0] == '\n' then 1
      else 0
  }

  /** The match at the start of non-empty text: the first alternative
      that matches, in the pattern's order. */
  function Next(s: string, isWord: char -> bool): (f: Found)
    requires s != []
    ensures 1 <= |f.text| <= |s| && f.text == s[..|f.text|]
  {
    var c := s[0];
    if IsCjkUnified(c) then Found(IdeographMatch, [c], "")
    else if IsCjkExtension(c) then Found(ExtensionMatch, [c], "")
    else if IsHiragana(c) then Found(HiraganaMatch, [c], "")
    else if IsKatakana(c) then Found(KatakanaMatch, [c], "")
    else if isWord(c) then Found(WordMatch, [c], "")
    else if !IsSpace(c) then Found(SymbolMatch, [c], "")
    else if RunLength(s) > 0 then Found(RunMatch, s[..RunLength(s)], s[..RunLength(s)])
    else if IsSpace(c) then Found(SpaceMatch, [c], "")
    else Found(DotMatch, [c], "")
  }

  /** `re.findall(pattern, s)`, one match after the other from the start. */
  function FindAll(s: string, isWord: char -> bool): (fs: seq<Found>)
    ensures fs == [] <==> s == []
    decreases |s|
  {
    if s == [] then []
    else
      var f := Next(s, isWord);
      [f] + FindAll(s[|f.text|..], isWord)
  }

  /** The matched texts, concatenated. */
  function Texts(fs: seq<Found>): string {
    if fs == [] then "" else fs[0].text + Texts(fs[1..])
  }

  /** The text splits into the first match and the rest. */
  lemma SplitFirst(s: string, isWord: char -> bool)
    requires s != []
    ensures s == Next(s, isWord).text + s[|Next(s, isWord).text|..]
    ensures FindAll(s, isWord) == [Next(s, isWord)] + FindAll(s[|Next(s, isWord).text|..], isWord)
  {
  }

  /** The matches cover the text: every character belongs to exactly one
      match, in order. */
  lemma {:induction false} FindAllCovers(s: string, isWord: char -> bool)
    ensures Texts(FindAll(s, isWord)) == s
    decreases |s|
  {
    if s != [] {
      var f := Next(s, isWord);
      var fs := FindAll(s, isWord);
      FindAllCovers(s[|f.text|..], isWord);
      assert fs[1..] == FindAll(s[|f.text|..], isWord);
    }
  }

  /** The last alternative `(.)` never matches: every character is
      either `\S` or `\s`, and both come before it. */
  lemma {:induction false} NoDotMatch(s: string, isWord: char -> bool)
    ensures forall i :: 0 <= i < |FindAll(s, isWord)| ==> FindAll(s, isWord)[i].kind != DotMatch
    decreases |s|
  {
    if s != [] {
      var f := Next(s, isWord);
      var fs := FindAll(s, isWord);
      NoDotMatch(s[|f.text|..], isWord);
      assert forall i :: 1 <= i < |fs| ==> fs[i] == FindAll(s[|f.text|..], isWord)[i - 1];
    }
  }

  /** Every match but a newline run is one character, and never a
      newline; a newline run is whitespace ending in a newline, and its
      nested group holds all of it. */
  lemma NextShape(s: string, isWord: char -> bool)
    requires s != [] && WordClass(isWord)
    ensures var f := Next(s, isWord);
      if f.kind == RunMatch then
        f.inner == f.text && AllSpace(f.text) && f.text[|f.text| - 1] == '\n'
      else
        f.text == [s[0]] && s[0] != '\n' && f.inner == ""
  {
    var c := s[0];
    if isWord(c) {
      assert !IsSpace(c);
    }
  }

  /** The last match of non-empty text is a newline run exactly when the
      text ends in a newline. */
  lemma {:induction false} LastMatchIsRun(s: string, isWord: char -> bool)
    requires s != [] && WordClass(isWord)
    ensures var fs := FindAll(s, isWord);
      fs[|fs| - 1].kind == RunMatch <==> s[|s| - 1] == '\n'
    decreases |s|
  {
    var f := Next(s, isWord);
    var rest := s[|f.text|..];
    SplitFirst(s, isWord);
    NextShape(s, isWord);
    if rest != [] {
      LastMatchIsRun(rest, isWord);
      assert s[|s| - 1] == rest[|rest| - 1];
    } else {
      assert f.text == s;
    }
  }

  /** What every match the scanner returns looks like: a newline run is
      whitespace ending in a newline and its nested group holds all of it;
      any other match is one character, never a newline, and it is
      whitespace exactly for the `\s` alternative. */
  predicate Shaped(f: Found) {
    && |f.text| >= 1 && f.kind != DotMatch
    && (f.kind == RunMatch ==> f.inner == f.text && AllSpace(f.text) && f.text[|f.text| - 1] == '\n')
    && (f.kind != RunMatch ==> |f.text| == 1 && f.text[0] != '\n' && f.inner == "")
    && (f.kind != RunMatch ==> (IsSpace(f.text[0]) <==> f.kind == SpaceMatch))
  }

  lemma NextShaped(s: string, isWord: char -> bool)
    requires s != [] && WordClass(isWord)
    ensures Shaped(Next(s, isWord))
  {
    if isWord(s[0]) {
      assert !IsSpace(s[0]);
    }
  }

  lemma {:induction false} AllShaped(s: string, isWord: char -> bool)
    requires WordClass(isWord)
    ensures forall i :: 0 <= i < |FindAll(s, isWord)| ==> Shaped(FindAll(s, isWord)[i])
    decreases |s|
  {
    if s != [] {
      var f := Next(s, isWord);
      var fs := FindAll(s, isWord);
      NextShaped(s, isWord);
      AllShaped(s[|f.text|..], isWord);
      assert forall i :: 1 <= i < |fs| ==> fs[i] == FindAll(s[|f.text|..], isWord)[i - 1];
    }
  }

  /** The number of characters of `s` that are not whitespace. */
  function NonSpaceCount(s: string): (n: nat)
    ensures n <= |s|
  {
    if s == [] then 0 else (if IsSpace(s[0]) then 0 else 1) + NonSpaceCount(s[1..])
  }

  lemma {:induction false} NonSpaceCountConcat(a: string, b: string)
    ensures NonSpaceCount(a + b) == NonSpaceCount(a) + NonSpaceCount(b)
  {
    if a != [] {
      assert (a + b)[1..] == a[1..] + b;
      NonSpaceCountConcat(a[1..], b);
    } else {
      assert a + b == b;
    }
  }

  lemma {:induction false} NonSpaceCountAllSpace(s: string)
    requires AllSpace(s)
    ensures NonSpaceCount(s) == 0
  {
    if s != [] {
      NonSpaceCountAllSpace(s[1..]);
    }
  }

  lemma {:induction false} CountCharConcat(a: string, b: string, c: char)
    ensures CountChar(a + b, c) == CountChar(a, c) + CountChar(b, c)
  {
    if a != [] {
      assert (a + b)[1..] == a[1..] + b;
      CountCharConcat(a[1..], b, c);
    } else {
      assert a + b == b;
    }
  }

  /** The number of characters inside newline runs. */
  function RunChars(fs: seq<Found>): nat {
    if fs == [] then 0 else (if fs[0].kind == RunMatch then |fs[0].text| else 0) + RunChars(fs[1..])
  }
}
