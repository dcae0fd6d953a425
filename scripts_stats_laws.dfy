/** What the counts of scripts/stats.py mean in terms of the text: each
    match's effect on the counter, and per file the number of lines, the
    non-whitespace characters and the ordering of paragraphs, non-blank
    lines and lines. */
module ScriptsStatsLaws {
  import opened Py
  import opened PyText
  import opened FsTree
  import opened Tally
  import opened StatsPattern
  import opened ScriptsStats

  predicate AllShapedMatches(fs: seq<Found>) {
    forall i :: 0 <= i < |fs| ==> Shaped(fs[i])
  }

  /** The alternatives that count as a word. */
  predicate Lettered(k: Kind) {
    k == IdeographMatch || k == ExtensionMatch || k == HiraganaMatch || k == KatakanaMatch || k == WordMatch
  }

  /** What one match adds to each count, by alternative: a CJK, hiragana
      or katakana character counts in its own category and as a word, any
      other word character only as a word, any other visible character as
      punctuation, a lone whitespace character as whitespace; a newline run
      adds its newlines to the lines, one non-blank line, one paragraph
      when it holds more than one newline, and nothing to the whitespace. */
  function Delta(f: Found): Counter {
    var z := Empty();
    match f.kind
    case IdeographMatch => z.(cjk := 1, words := 1)
    case ExtensionMatch => z.(cjk := 1, words := 1)
    case HiraganaMatch => z.(hiragana := 1, words := 1)
    case KatakanaMatch => z.(katakana := 1, words := 1)
    case WordMatch => z.(words := 1)
    case SymbolMatch => z.(punctuations := 1)
    case RunMatch =>
      var lf := CountChar(f.text, '\n');
      z.(paragraphs := if lf > 1 then 1 else 0, nonBlankLines := 1, lines := lf)
    case SpaceMatch => z.(whitespaces := 1)
    case DotMatch => z.(others := 1)
  }

  /** The loop body, run on the tuple of a match, adds that match's
      contribution to the counter. */
  lemma StepAddsDelta(c: Counter, f: Found)
    requires Shaped(f)
    ensures Step(c, Groups(f)) == Update(c, Delta(f))
  {
  }

  /** The effect of one match on the character categories: a CJK,
      hiragana or katakana character counts in its own category and as a
      word, any other word character only as a word, any other visible
      character as punctuation, a lone whitespace character as whitespace,
      and a newline run adds nothing to any of them (its `(\s)` group is
      empty). */
  lemma MatchCategories(c: Counter, f: Found)
    requires Shaped(f)
    ensures var r := Step(c, Groups(f));
      && Get(r, Cjk) == Get(c, Cjk) + (if f.kind == IdeographMatch || f.kind == ExtensionMatch then 1 else 0)
      && Get(r, Hiragana) == Get(c, Hiragana) + (if f.kind == HiraganaMatch then 1 else 0)
      && Get(r, Katakana) == Get(c, Katakana) + (if f.kind == KatakanaMatch then 1 else 0)
      && Get(r, Words) == Get(c, Words) + (if Lettered(f.kind) then 1 else 0)
      && Get(r, Punctuations) == Get(c, Punctuations) + (if f.kind == SymbolMatch then 1 else 0)
      && Get(r, Whitespaces) == Get(c, Whitespaces) + (if f.kind == SpaceMatch then 1 else 0)
      && Get(r, Others) == Get(c, Others)
  {
    StepAddsDelta(c, f);
  }

  /** The effect of one match on the line counts: a newline run adds its
      newlines to the lines, one non-blank line, and one paragraph when it
      holds more than one newline; no other match touches them. */
  lemma MatchLines(c: Counter, f: Found)
    requires Shaped(f)
    ensures var r := Step(c, Groups(f));
      var lf := CountChar(f.text, '\n');
      && Get(r, Lines) == Get(c, Lines) + lf
      && Get(r, NonBlankLines) == Get(c, NonBlankLines) + (if f.kind == RunMatch then 1 else 0)
      && Get(r, Paragraphs) == Get(c, Paragraphs) + (if f.kind == RunMatch && lf > 1 then 1 else 0)
  {
    StepAddsDelta(c, f);
    if f.kind != RunMatch {
      assert f.text == [f.text[0]];
    }
  }

  /** The counter after a sequence of matches, each adding its
      contribution. */
  function Tallied(c: Counter, fs: seq<Found>): Counter
    decreases |fs|
  {
    if fs == [] then c else Tallied(Update(c, Delta(fs[0])), fs[1..])
  }

  /** The loop over the tuples of a sequence of matches adds their
      contributions. */
  lemma {:induction false} CountAllTallies(c: Counter, fs: seq<Found>)
    requires AllShapedMatches(fs)
    ensures CountAll(c, GroupsOf(fs)) == Tallied(c, fs)
    decreases |fs|
  {
    if fs != [] {
      assert GroupsOf(fs)[1..] == GroupsOf(fs[1..]);
      StepAddsDelta(c, fs[0]);
      CountAllTallies(Update(c, Delta(fs[0])), fs[1..]);
    }
  }

  /** What one match adds to the lines, the visible characters and the
      whitespace, in terms of its text. */
  lemma DeltaText(c: Counter, f: Found)
    requires Shaped(f)
    ensures var r := Update(c, Delta(f));
      && Get(r, Lines) == Get(c, Lines) + CountChar(f.text, '\n')
      && Get(r, Words) + Get(r, Punctuations) == Get(c, Words) + Get(c, Punctuations) + NonSpaceCount(f.text)
      && Get(r, Whitespaces) + (if f.kind == RunMatch then |f.text| else 0) ==
         Get(c, Whitespaces) + |f.text| - NonSpaceCount(f.text)
  {
    if f.kind == RunMatch {
      NonSpaceCountAllSpace(f.text);
    } else {
      assert f.text == [f.text[0]];
    }
  }

  /** Over a sequence of matches the lines grow by the newlines of their
      text. */
  lemma {:induction false} LinesOfMatches(c: Counter, fs: seq<Found>)
    requires AllShapedMatches(fs)
    ensures Get(Tallied(c, fs), Lines) == Get(c, Lines) + CountChar(Texts(fs), '\n')
    decreases |fs|
  {
    if fs != [] {
      var f := fs[0];
      LinesOfMatches(Update(c, Delta(f)), fs[1..]);
      CountCharConcat(f.text, Texts(fs[1..]), '\n');
      DeltaText(c, f);
    }
  }

  /** Over a sequence of matches words and punctuation grow by the
      non-whitespace characters of their text. */
  lemma {:induction false} VisibleOfMatches(c: Counter, fs: seq<Found>)
    requires AllShapedMatches(fs)
    decreases |fs|
    ensures var r := Tallied(c, fs);
      Get(r, Words) + Get(r, Punctuations) == Get(c, Words) + Get(c, Punctuations) + NonSpaceCount(Texts(fs))
  {
    if fs != [] {
      var f := fs[0];
      VisibleOfMatches(Update(c, Delta(f)), fs[1..]);
      NonSpaceCountConcat(f.text, Texts(fs[1..]));
      DeltaText(c, f);
    }
  }

  /** Over a sequence of matches nothing counts as another character. */
  lemma {:induction false} OthersOfMatches(c: Counter, fs: seq<Found>)
    requires AllShapedMatches(fs)
    decreases |fs|
    ensures Get(Tallied(c, fs), Others) == Get(c, Others)
  {
    if fs != [] {
      OthersOfMatches(Update(c, Delta(fs[0])), fs[1..]);
    }
  }

  /** Over a sequence of matches whitespace grows by the whitespace outside
      newline runs. */
  lemma {:induction false} SpacesOfMatches(c: Counter, fs: seq<Found>)
    requires AllShapedMatches(fs)
    decreases |fs|
    ensures Get(Tallied(c, fs), Whitespaces) + RunChars(fs) ==
      Get(c, Whitespaces) + |Texts(fs)| - NonSpaceCount(Texts(fs))
  {
    if fs != [] {
      var f := fs[0];
      SpacesOfMatches(Update(c, Delta(f)), fs[1..]);
      NonSpaceCountConcat(f.text, Texts(fs[1..]));
      DeltaText(c, f);
    }
  }

  /** Every newline of the text lies inside a newline run. */
  lemma {:induction false} NewlinesInRuns(fs: seq<Found>)
    requires AllShapedMatches(fs)
    ensures CountChar(Texts(fs), '\n') <= RunChars(fs)
  {
    if fs != [] {
      var f := fs[0];
      assert Texts(fs) == f.text + Texts(fs[1..]);
      NewlinesInRuns(fs[1..]);
      CountCharConcat(f.text, Texts(fs[1..]), '\n');
      if f.kind != RunMatch {
        assert f.text == [f.text[0]];
      }
    }
  }

  /** A newline run holding exactly one newline. */
  predicate SingleRun(f: Found) {
    f.kind == RunMatch && CountChar(f.text, '\n') == 1
  }

  /** Over a sequence of matches no more paragraphs than non-blank lines
      are added, with one to spare when the last match is a run of a
      single newline, and no more non-blank lines than lines. */
  lemma {:induction false} OrderOfMatches(c: Counter, fs: seq<Found>)
    requires fs != [] && AllShapedMatches(fs)
    ensures var r := Tallied(c, fs);
      && Get(r, Paragraphs) - Get(c, Paragraphs) + (if SingleRun(fs[|fs| - 1]) then 1 else 0)
           <= Get(r, NonBlankLines) - Get(c, NonBlankLines)
      && Get(r, NonBlankLines) - Get(c, NonBlankLines) <= Get(r, Lines) - Get(c, Lines)
    decreases |fs|
  {
    var f := fs[0];
    DeltaOrder(c, f);
    if |fs| > 1 {
      OrderOfMatches(Update(c, Delta(f)), fs[1..]);
    }
  }

  /** What one match adds to paragraphs, non-blank lines and lines. */
  lemma DeltaOrder(c: Counter, f: Found)
    requires Shaped(f)
    ensures var r := Update(c, Delta(f));
      && Get(r, Paragraphs) - Get(c, Paragraphs) + (if SingleRun(f) then 1 else 0)
           <= Get(r, NonBlankLines) - Get(c, NonBlankLines)
      && Get(r, NonBlankLines) - Get(c, NonBlankLines) <= Get(r, Lines) - Get(c, Lines)
  {
    if f.kind == RunMatch {
      assert '\n' in f.text;
    }
  }

  /** The `(\s)` group of the last match: the run itself when the text
      ends in a newline run, empty otherwise. */
  function LastInner(fs: seq<Found>): string
    requires fs != []
  {
    var last := fs[|fs| - 1];
    if last.kind == RunMatch then last.text else ""
  }

  /** The contributions of a file's matches, closed by the end-of-file
      step on the last match's group and the two derived totals. */
  function Closed(fs: seq<Found>): Counter
    requires fs != []
  {
    Derive(EndOfFile(Tallied(Empty(), fs), LastInner(fs)))
  }

  /** The counter of a file with text is the contributions of its
      matches, closed by the end-of-file step on the last match's group. */
  lemma FileCountsTallied(text: string, isWord: char -> bool)
    requires WordClass(isWord) && text != []
    ensures FindAll(text, isWord) != []
    ensures FileCounts(text, isWord) == Some(Closed(FindAll(text, isWord)))
  {
    var fs := FindAll(text, isWord);
    FindAllCovers(text, isWord);
    AllShaped(text, isWord);
    CountAllTallies(Empty(), fs);
    var gs := GroupsOf(fs);
    var last := fs[|fs| - 1];
    assert Shaped(last);
    assert gs[|gs| - 1][6] == LastInner(fs) by {
      assert gs[|gs| - 1] == Groups(last);
    }
    assert FileCounts(text, isWord) == Some(Derive(EndOfFile(CountAll(Empty(), gs), gs[|gs| - 1][6])));
  }

  /** The end-of-file step adds a line exactly when the last group holds
      no newline, and the derived totals leave the lines alone. */
  lemma ClosedLines(t: Counter, inner: string)
    ensures Get(Derive(EndOfFile(t, inner)), Lines) ==
      Get(t, Lines) + (if CountChar(inner, '\n') == 0 then 1 else 0)
  {
  }

  /** The lines of a file are its newlines plus one for an unterminated
      last line (its last match is a newline run exactly when it ends in a
      newline). */
  lemma FileLines(text: string, fs: seq<Found>)
    requires fs != [] && AllShapedMatches(fs) && Texts(fs) == text && text != []
    requires fs[|fs| - 1].kind == RunMatch <==> text[|text| - 1] == '\n'
    ensures Get(Closed(fs), Lines) == CountChar(text, '\n') + (if text[|text| - 1] == '\n' then 0 else 1)
  {
    var t := Tallied(Empty(), fs);
    var inner := LastInner(fs);
    LinesOfMatches(Empty(), fs);
    ClosedLines(t, inner);
    LastInnerNewlines(fs);
    assert Closed(fs) == Derive(EndOfFile(t, inner));
  }

  /** The last group holds a newline exactly when the last match is a
      newline run. */
  lemma LastInnerNewlines(fs: seq<Found>)
    requires fs != [] && Shaped(fs[|fs| - 1])
    ensures CountChar(LastInner(fs), '\n') == 0 <==> fs[|fs| - 1].kind != RunMatch
  {
    var last := fs[|fs| - 1];
    if last.kind == RunMatch {
      assert last.text[|last.text| - 1] == '\n';
    }
  }

  /** The character totals of a closed counter come from the tallied
      categories alone: the end-of-file step touches only the line counts. */
  lemma ClosedTotals(t: Counter, inner: string)
    ensures var c := Derive(EndOfFile(t, inner));
      && Get(c, CharsNoSpaces) == Get(t, Words) + Get(t, Punctuations) + Get(t, Others)
      && Get(c, CharsWithSpaces) == Get(c, CharsNoSpaces) + Get(t, Whitespaces)
      && Get(c, Others) == Get(t, Others)
  {
  }

  /** The characters of a file without spaces are its non-whitespace
      characters, none counts as other, and the characters with spaces are
      its length less the whitespace inside newline runs. */
  lemma FileChars(fs: seq<Found>)
    requires fs != [] && AllShapedMatches(fs)
    ensures var c := Closed(fs);
      && Get(c, CharsNoSpaces) == NonSpaceCount(Texts(fs))
      && Get(c, Others) == 0
      && Get(c, CharsWithSpaces) + RunChars(fs) == |Texts(fs)|
  {
    ClosedTotals(Tallied(Empty(), fs), LastInner(fs));
    VisibleOfMatches(Empty(), fs);
    OthersOfMatches(Empty(), fs);
    SpacesOfMatches(Empty(), fs);
  }

  /** A file has no more paragraphs than non-blank lines and no more
      non-blank lines than lines. */
  lemma FileOrder(fs: seq<Found>)
    requires fs != [] && AllShapedMatches(fs)
    ensures var c := Closed(fs);
      Get(c, Paragraphs) <= Get(c, NonBlankLines) <= Get(c, Lines)
  {
    var last := fs[|fs| - 1];
    var t := Tallied(Empty(), fs);
    assert Get(t, Paragraphs) + (if SingleRun(last) then 1 else 0) <= Get(t, NonBlankLines) <= Get(t, Lines) by {
      OrderOfMatches(Empty(), fs);
    }
    assert CountChar(LastInner(fs), '\n') == 1 <==> SingleRun(last) by {
      if last.kind == RunMatch {
        assert LastInner(fs) == last.text;
      } else {
        assert LastInner(fs) == "" && CountChar("", '\n') == 0;
      }
    }
    ClosedOrder(t, LastInner(fs), SingleRun(last));
  }

  /** The end-of-file step keeps paragraphs, non-blank lines and lines in
      order. */
  lemma ClosedOrder(t: Counter, inner: string, single: bool)
    requires Get(t, Paragraphs) + (if single then 1 else 0) <= Get(t, NonBlankLines) <= Get(t, Lines)
    requires single <==> CountChar(inner, '\n') == 1
    ensures var c := Derive(EndOfFile(t, inner));
      Get(c, Paragraphs) <= Get(c, NonBlankLines) <= Get(c, Lines)
  {
  }

  /** The counter of one file, in terms of its text: a file without text
      is not counted; otherwise its lines, characters and the ordering of
      paragraphs, non-blank lines and lines are as the three lemmas above
      state. */
  lemma FileCountsMeaning(text: string, isWord: char -> bool)
    requires WordClass(isWord)
    ensures FileCounts(text, isWord).None? <==> text == []
    ensures text != [] ==>
      var c := FileCounts(text, isWord).value;
      && Get(c, Lines) == CountChar(text, '\n') + (if text[|text| - 1] == '\n' then 0 else 1)
      && Get(c, CharsNoSpaces) == NonSpaceCount(text)
      && Get(c, Others) == 0
      && Get(c, CharsWithSpaces) + RunChars(FindAll(text, isWord)) == |text|
      && Get(c, Paragraphs) <= Get(c, NonBlankLines) <= Get(c, Lines)
  {
    if text != [] {
      var fs := FindAll(text, isWord);
      FileCountsTallied(text, isWord);
      FindAllCovers(text, isWord);
      AllShaped(text, isWord);
      LastMatchIsRun(text, isWord);
      FileLines(text, fs);
      FileChars(fs);
      FileOrder(fs);
    }
  }

  /** Without a newline run the scripts variant's total with spaces is the
      length of the text; each run's whitespace is left out of it, which
      takes at least one character per line break. */
  lemma CharsWithSpacesShortfall(text: string, isWord: char -> bool)
    requires WordClass(isWord) && text != []
    ensures CountChar(text, '\n') <= |text| - Get(FileCounts(text, isWord).value, CharsWithSpaces)
  {
    AllShaped(text, isWord);
    FindAllCovers(text, isWord);
    NewlinesInRuns(FindAll(text, isWord));
    FileCountsMeaning(text, isWord);
  }

  // ----- over the files -----

  /** The texts of the files that decode, in order. */
  function Decoded(root: Node, files: seq<RelPath>): seq<string> {
    if files == [] then []
    else
      var t := ReadText(root, files[|files| - 1]);
      Decoded(root, files[..|files| - 1]) + (if t.Some? then [t.value] else [])
  }

  function NonSpaceTotal(texts: seq<string>): nat {
    if texts == [] then 0 else NonSpaceTotal(texts[..|texts| - 1]) + NonSpaceCount(texts[|texts| - 1])
  }

  /** The summary counts every file that decodes, shows no other
      characters, and its characters without spaces are the non-whitespace
      characters of all those files. */
  lemma {:induction false} TourTotals(root: Node, files: seq<RelPath>, isWord: char -> bool, verbose: bool)
    requires WordClass(isWord)
    ensures var pr := Tour(root, files, isWord, verbose);
      && pr.count == |Decoded(root, files)|
      && Get(pr.total, Others) == 0
      && Get(pr.total, CharsNoSpaces) == NonSpaceTotal(Decoded(root, files))
  {
    if files != [] {
      var init := files[..|files| - 1];
      TourTotals(root, init, isWord, verbose);
      var pr := Tour(root, init, isWord, verbose);
      var t := ReadText(root, files[|files| - 1]);
      if t.Some? {
        var ds := Decoded(root, init) + [t.value];
        assert ds[..|ds| - 1] == Decoded(root, init);
        assert Decoded(root, files) == ds;
        var fc := FileCounts(t.value, isWord);
        assert Tour(root, files, isWord, verbose) == Absorb(pr, fc, PathText(files[|files| - 1]), verbose);
        FileCountsMeaning(t.value, isWord);
        assert NonSpaceTotal(ds) == NonSpaceTotal(Decoded(root, init)) + NonSpaceCount(t.value);
        if fc.None? {
          assert NonSpaceCount(t.value) == 0;
        } else {
          assert Get(Update(pr.total, fc.value), CharsNoSpaces) ==
            Get(pr.total, CharsNoSpaces) + Get(fc.value, CharsNoSpaces);
        }
      } else {
        assert Decoded(root, files) == Decoded(root, init);
      }
    }
  }

  // ----- the layout -----

  /** The two columns of a count line: a caption below 28 characters and
      a colon, padded to 28, then a count of at most 8 digits, padded on
      the left to 8, then the newline. */
  lemma Columns(caption: string, d: string, line: string)
    requires |caption| < 28 && |d| <= 8
    requires line == LJust(caption + ":", CaptionWidth()) + RJust(d, CountWidth()) + "\n"
    ensures |line| == 37
    ensures line[..|caption| + 1] == caption + ":"
    ensures AllSpace(line[|caption| + 1..28])
    ensures line[36 - |d|..36] == d
    ensures AllSpace(line[28..36 - |d|])
    ensures line[36] == '\n'
  {
    var left := LJust(caption + ":", CaptionWidth());
    var right := RJust(d, CountWidth());
    var n := |caption| + 1;
    assert |left| == 28 && |right| == 8;
    Pieces(left, right, "\n", n, 8 - |d|);
  }

  /** The slices of `a + b + c` at a cut inside `a` and a cut inside `b`. */
  lemma Pieces(a: string, b: string, c: string, i: nat, j: nat)
    requires i <= |a| && j <= |b|
    ensures var s := a + b + c;
      && s[..i] == a[..i] && s[i..|a|] == a[i..]
      && s[|a|..|a| + j] == b[..j] && s[|a| + j..|a| + |b|] == b[j..]
  {
    var s := a + b + c;
    assert s[..i] == a[..i];
    assert s[i..|a|] == a[i..];
    assert s[|a|..|a| + j] == b[..j];
    assert s[|a| + j..|a| + |b|] == b[j..];
  }

  /** A count line is 37 characters wide when its caption fits in 27 and
      its count in 8: the caption and a colon from the left, the count
      flush against the final newline, spaces between. */
  lemma LineLayout(c: Counter, key: Key, name: Option<string>)
    requires |Caption(key, name)| < 28 && |IntToDecimal(Get(c, key))| <= 8
    ensures var caption := Caption(key, name);
      var d := IntToDecimal(Get(c, key));
      var line := Line(c, key, name);
      && |line| == 37
      && line[..|caption| + 1] == caption + ":"
      && AllSpace(line[|caption| + 1..28])
      && line[36 - |d|..36] == d
      && AllSpace(line[28..36 - |d|])
      && line[36] == '\n'
  {
    Columns(Caption(key, name), IntToDecimal(Get(c, key)), Line(c, key, name));
  }

  /** The separator line is 36 copies of the separator and a newline. */
  lemma {:induction false} SepsLayout(sep: string, n: nat)
    requires |sep| == 1
    ensures |Repeat(sep, n)| == n
    ensures forall i :: 0 <= i < n ==> Repeat(sep, n)[i] == sep[0]
  {
    if n > 0 {
      SepsLayout(sep, n - 1);
    }
  }
}
