/** What the counts of source/stats.py mean, by comparison with the
    scripts variant: every count agrees except the whitespace, which also
    takes in the newline runs, so that the characters with spaces are
    exactly the length of the text; and a file without text ends the run
    with `IndexError`. */
module SourceStatsLaws {
  import opened Py
  import opened PyText
  import opened FsTree
  import opened Tally
  import opened StatsPattern
  import ScriptsStats
  import SourceStats
  import opened ScriptsStatsLaws

  /** The characters of a match that this variant adds to the whitespace
      on top of the scripts variant: the whole of a newline run. */
  function RunLength(f: Found): nat {
    if f.kind == RunMatch then |f.text| else 0
  }

  /** A counter with `n` more whitespace characters. */
  function MoreSpaces(c: Counter, n: int): Counter {
    c.(whitespaces := c.whitespaces + n)
  }

  /** A derived counter with `n` more whitespace characters, in the
      whitespace and in the characters with spaces. */
  function Widened(c: Counter, n: int): Counter {
    c.(whitespaces := c.whitespaces + n, charsWithSpaces := c.charsWithSpaces + n)
  }

  /** One pass of this variant's loop body adds what the scripts variant
      adds, and a newline run's length to the whitespace. */
  lemma StepVariants(c: Counter, f: Found)
    requires Shaped(f)
    ensures SourceStats.Step(c, SourceStats.Groups(f)) == MoreSpaces(Update(c, Delta(f)), RunLength(f))
  {
  }

  /** The counter after a sequence of matches in this variant. */
  function SourceTallied(c: Counter, fs: seq<Found>): Counter
    decreases |fs|
  {
    if fs == [] then c else SourceTallied(MoreSpaces(Update(c, Delta(fs[0])), RunLength(fs[0])), fs[1..])
  }

  /** The loop over the tuples of a sequence of matches is the tally. */
  lemma {:induction false} CountAllSourceTallies(c: Counter, fs: seq<Found>)
    requires AllShapedMatches(fs)
    ensures SourceStats.CountAll(c, SourceStats.GroupsOf(fs)) == SourceTallied(c, fs)
    decreases |fs|
  {
    if fs != [] {
      assert SourceStats.GroupsOf(fs)[1..] == SourceStats.GroupsOf(fs[1..]);
      StepVariants(c, fs[0]);
      CountAllSourceTallies(MoreSpaces(Update(c, Delta(fs[0])), RunLength(fs[0])), fs[1..]);
    }
  }

  /** Extra whitespace at the start of the tally is extra whitespace at
      the end. */
  lemma {:induction false} TalliedShift(c: Counter, n: int, fs: seq<Found>)
    ensures Tallied(MoreSpaces(c, n), fs) == MoreSpaces(Tallied(c, fs), n)
    decreases |fs|
  {
    if fs != [] {
      assert Update(MoreSpaces(c, n), Delta(fs[0])) == MoreSpaces(Update(c, Delta(fs[0])), n);
      TalliedShift(Update(c, Delta(fs[0])), n, fs[1..]);
    }
  }

  /** Over a sequence of matches this variant's tally is the scripts
      tally with the newline runs added to the whitespace. */
  lemma {:induction false} TalliesDiffer(c: Counter, fs: seq<Found>)
    ensures SourceTallied(c, fs) == MoreSpaces(Tallied(c, fs), RunChars(fs))
    decreases |fs|
  {
    if fs != [] {
      var f := fs[0];
      var next := Update(c, Delta(f));
      TalliesDiffer(MoreSpaces(next, RunLength(f)), fs[1..]);
      TalliedShift(next, RunLength(f), fs[1..]);
    }
  }

  /** The end-of-file step and the derived totals carry extra whitespace
      into the characters with spaces. */
  lemma CloseWidened(t: Counter, n: int, inner: string)
    ensures ScriptsStats.Derive(ScriptsStats.EndOfFile(MoreSpaces(t, n), inner)) ==
      Widened(ScriptsStats.Derive(ScriptsStats.EndOfFile(t, inner)), n)
  {
  }

  /** The counter of a file with text in this variant is the tally of
      its matches, closed by the end-of-file step and the derived totals. */
  lemma SourceFileCountsTallied(text: string, isWord: char -> bool)
    requires WordClass(isWord) && text != []
    ensures FindAll(text, isWord) != []
    ensures var fs := FindAll(text, isWord);
      SourceStats.FileCounts(text, isWord) ==
      Ok(ScriptsStats.Derive(ScriptsStats.EndOfFile(SourceTallied(Empty(), fs), LastInner(fs))))
  {
    var fs := FindAll(text, isWord);
    FindAllCovers(text, isWord);
    AllShaped(text, isWord);
    CountAllSourceTallies(Empty(), fs);
    var gs := SourceStats.GroupsOf(fs);
    var last := fs[|fs| - 1];
    assert Shaped(last);
    assert gs[|gs| - 1][7] == LastInner(fs) by {
      assert gs[|gs| - 1] == SourceStats.Groups(last);
    }
    assert SourceStats.FileCounts(text, isWord) ==
      Ok(ScriptsStats.Derive(ScriptsStats.EndOfFile(SourceStats.CountAll(Empty(), gs), gs[|gs| - 1][7])));
  }

  /** Closing this variant's tally gives the closed scripts tally with the
      newline runs added to the whitespace and the characters with spaces. */
  lemma ClosedVariants(fs: seq<Found>)
    requires fs != []
    ensures ScriptsStats.Derive(ScriptsStats.EndOfFile(SourceTallied(Empty(), fs), LastInner(fs))) ==
      Widened(Closed(fs), RunChars(fs))
  {
    TalliesDiffer(Empty(), fs);
    CloseWidened(Tallied(Empty(), fs), RunChars(fs), LastInner(fs));
  }

  /** The counter of this variant is the scripts counter with every
      newline run's characters added to the whitespace and to the
      characters with spaces; a file without text raises `IndexError`
      where the scripts variant skips it. */
  lemma FileCountsVariants(text: string, isWord: char -> bool)
    requires WordClass(isWord)
    ensures text == [] ==> SourceStats.FileCounts(text, isWord) == Err(IndexError)
    ensures text != [] ==>
      SourceStats.FileCounts(text, isWord) ==
      Ok(Widened(ScriptsStats.FileCounts(text, isWord).value, RunChars(FindAll(text, isWord))))
  {
    if text != [] {
      SourceFileCountsTallied(text, isWord);
      FileCountsTallied(text, isWord);
      ClosedVariants(FindAll(text, isWord));
    }
  }

  /** The characters with spaces of a derived counter are those without
      spaces and the whitespace. */
  lemma DerivedSpaces(e: Counter)
    ensures var c := ScriptsStats.Derive(e);
      Get(c, CharsWithSpaces) == Get(c, CharsNoSpaces) + Get(c, Whitespaces)
  {
  }

  /** Over the matches of a text, this variant's closed counter has the
      text's length as its characters with spaces, its non-whitespace
      characters as those without, the rest as whitespace, and no other
      characters. */
  lemma SourceClosedMeaning(fs: seq<Found>)
    requires fs != [] && AllShapedMatches(fs)
    ensures var c := Widened(Closed(fs), RunChars(fs));
      && Get(c, CharsWithSpaces) == |Texts(fs)|
      && Get(c, CharsNoSpaces) == NonSpaceCount(Texts(fs))
      && Get(c, Whitespaces) == |Texts(fs)| - NonSpaceCount(Texts(fs))
      && Get(c, Others) == 0
  {
    var sc := Closed(fs);
    assert Get(sc, CharsWithSpaces) == Get(sc, CharsNoSpaces) + Get(sc, Whitespaces) by {
      DerivedSpaces(ScriptsStats.EndOfFile(Tallied(Empty(), fs), LastInner(fs)));
    }
    FileChars(fs);
    WidenedMeaning(sc, RunChars(fs), |Texts(fs)|, NonSpaceCount(Texts(fs)));
  }

  /** Widening a derived counter whose characters with spaces fall short
      of a length by exactly `n` makes them that length, and puts
      everything but the non-whitespace characters in the whitespace. */
  lemma WidenedMeaning(c: Counter, n: int, len: int, visible: int)
    requires Get(c, CharsWithSpaces) + n == len && Get(c, CharsNoSpaces) == visible
    requires Get(c, CharsWithSpaces) == Get(c, CharsNoSpaces) + Get(c, Whitespaces)
    requires Get(c, Others) == 0
    ensures var w := Widened(c, n);
      && Get(w, CharsWithSpaces) == len
      && Get(w, CharsNoSpaces) == visible
      && Get(w, Whitespaces) == len - visible
      && Get(w, Others) == 0
  {
    WidenedCounts(c, n);
  }

  /** Widening moves the whitespace and the characters with spaces and
      nothing else. */
  lemma WidenedCounts(c: Counter, n: int)
    ensures var w := Widened(c, n);
      && Get(w, CharsWithSpaces) == Get(c, CharsWithSpaces) + n
      && Get(w, Whitespaces) == Get(c, Whitespaces) + n
      && Get(w, CharsNoSpaces) == Get(c, CharsNoSpaces)
      && Get(w, Others) == Get(c, Others)
      && Get(w, Lines) == Get(c, Lines)
  {
  }

  /** In this variant the characters with spaces are the length of the
      text, the rest of the characters are split as in the scripts
      variant, and the lines are counted alike. */
  lemma SourceFileMeaning(text: string, isWord: char -> bool)
    requires WordClass(isWord)
    ensures SourceStats.FileCounts(text, isWord).Err? <==> text == []
    ensures text != [] ==>
      var c := SourceStats.FileCounts(text, isWord).value;
      && Get(c, CharsWithSpaces) == |text|
      && Get(c, CharsNoSpaces) == NonSpaceCount(text)
      && Get(c, Whitespaces) == |text| - NonSpaceCount(text)
      && Get(c, Lines) == CountChar(text, '\n') + (if text[|text| - 1] == '\n' then 0 else 1)
      && Get(c, Others) == 0
  {
    FileCountsVariants(text, isWord);
    if text != [] {
      var fs := FindAll(text, isWord);
      FileCountsTallied(text, isWord);
      FindAllCovers(text, isWord);
      AllShaped(text, isWord);
      LastMatchIsRun(text, isWord);
      SourceClosedMeaning(fs);
      FileLines(text, fs);
      WidenedCounts(Closed(fs), RunChars(fs));
    }
  }

  // ----- over the files -----

  /** Some selected file decodes to the empty text. */
  predicate SomeEmpty(root: Node, files: seq<RelPath>) {
    exists k :: 0 <= k < |files| && ScriptsStats.ReadText(root, files[k]) == Some([])
  }

  /** The run fails, with `IndexError`, exactly when some selected file
      decodes to the empty text; otherwise it sums the counters of the
      files that decode. */
  lemma {:induction false} TourFails(root: Node, name: string, files: seq<RelPath>, isWord: char -> bool,
                                     verbose: bool)
    requires WordClass(isWord)
    ensures var t := SourceStats.Tour(root, name, files, isWord, verbose);
      && (t.Err? <==> SomeEmpty(root, files))
      && (t.Err? ==> t.error == IndexError)
  {
    if files != [] {
      var init := files[..|files| - 1];
      var i := files[|files| - 1];
      TourFails(root, name, init, isWord, verbose);
      var raw := ScriptsStats.ReadText(root, i);
      if raw.Some? {
        FileCountsVariants(raw.value, isWord);
      }
      if SomeEmpty(root, init) {
        var k :| 0 <= k < |init| && ScriptsStats.ReadText(root, init[k]) == Some([]);
        assert files[k] == init[k];
      }
      if SomeEmpty(root, files) {
        var k :| 0 <= k < |files| && ScriptsStats.ReadText(root, files[k]) == Some([]);
        if k < |init| {
          assert init[k] == files[k];
        }
      }
    }
  }

  /** The total length of some texts. */
  function LengthTotal(texts: seq<string>): nat {
    if texts == [] then 0 else LengthTotal(texts[..|texts| - 1]) + |texts[|texts| - 1]|
  }

  /** When the run succeeds its characters with spaces are the total
      length of the files that decode. */
  lemma {:induction false} TourLength(root: Node, name: string, files: seq<RelPath>, isWord: char -> bool,
                                      verbose: bool)
    requires WordClass(isWord)
    requires SourceStats.Tour(root, name, files, isWord, verbose).Ok?
    ensures Get(SourceStats.Tour(root, name, files, isWord, verbose).value.total, CharsWithSpaces) ==
      LengthTotal(Decoded(root, files))
  {
    if files != [] {
      var init := files[..|files| - 1];
      var pr := SourceStats.Tour(root, name, init, isWord, verbose);
      assert pr.Ok?;
      TourLength(root, name, init, isWord, verbose);
      var t := ScriptsStats.ReadText(root, files[|files| - 1]);
      if t.Some? {
        var ds := Decoded(root, init) + [t.value];
        assert ds[..|ds| - 1] == Decoded(root, init);
        assert Decoded(root, files) == ds;
        var fc := SourceStats.FileCounts(t.value, isWord);
        assert SourceStats.Tour(root, name, files, isWord, verbose) ==
          SourceStats.Absorb(pr.value, fc, name, verbose);
        SourceFileMeaning(t.value, isWord);
      } else {
        assert Decoded(root, files) == Decoded(root, init);
      }
    }
  }
}
