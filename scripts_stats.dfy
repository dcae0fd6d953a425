/** `statistics` of scripts/stats.py: per-file counts of paragraphs,
    lines, words, CJK and kana characters, punctuation and whitespace,
    summed over the files the filter selects and rendered as a report. */
module ScriptsStats {
  import opened Py
  import opened PyText
  import opened FsTree
  import opened Tally
  import opened StatsPattern
  import ScriptsFilter

  // ----- the group tuples of the nine-group pattern -----

  /** The tuple `findall` yields for one match: the matched text in the
      group of its alternative and `''` in the others. A newline run fills
      the outer group (index 5) and the nested one (index 6). */
  function Groups(f: Found): (g: seq<string>)
    ensures |g| == 9
  {
    var t := f.text;
    [ if f.kind == IdeographMatch || f.kind == ExtensionMatch then t else "",
      if f.kind == HiraganaMatch then t else "",
      if f.kind == KatakanaMatch then t else "",
      if f.kind == WordMatch then t else "",
      if f.kind == SymbolMatch then t else "",
      if f.kind == RunMatch then t else "",
      if f.kind == RunMatch then f.inner else "",
      if f.kind == SpaceMatch then t else "",
      if f.kind == DotMatch then t else "" ]
  }

  function GroupsOf(fs: seq<Found>): (gs: seq<seq<string>>)
    ensures |gs| == |fs|
    ensures forall i :: 0 <= i < |fs| ==> gs[i] == Groups(fs[i])
  {
    seq(|fs|, i requires 0 <= i < |fs| => Groups(fs[i]))
  }

  predicate Tuples(gs: seq<seq<string>>) {
    forall i :: 0 <= i < |gs| ==> |gs[i]| == 9
  }

  // ----- counting, as functions -----

  /** One pass of the `for j, k, l, m, n, o, _, p, q in _groups` body: the
      first non-empty group decides. */
  function Step(c: Counter, g: seq<string>): Counter
    requires |g| == 9
  {
    var j := g[0];
    var k := g[1];
    var l := g[2];
    var m := g[3];
    var n := g[4];
    var o := g[5];
    var p := g[7];
    var q := g[8];
    if j != "" then c.(cjk := c.cjk + 1, words := c.words + 1)
    else if k != "" then c.(hiragana := c.hiragana + 1, words := c.words + 1)
    else if l != "" then c.(katakana := c.katakana + 1, words := c.words + 1)
    else if m != "" then c.(words := c.words + 1)
    else if n != "" then c.(punctuations := c.punctuations + 1)
    else if o != "" then
      var lf := CountChar(o, '\n');
      var c1 := if lf > 1 then c.(paragraphs := c.paragraphs + 1) else c;
      c1.(nonBlankLines := c1.nonBlankLines + 1, lines := c1.lines + lf, whitespaces := c1.whitespaces + |p|)
    else if p != "" then c.(whitespaces := c.whitespaces + 1)
    else if q != "" then c.(others := c.others + 1)
    else c
  }

  /** The whole loop over the tuples, from the first to the last. */
  function CountAll(c: Counter, gs: seq<seq<string>>): Counter
    requires Tuples(gs)
    decreases |gs|
  {
    if gs == [] then c else CountAll(Step(c, gs[0]), gs[1..])
  }

  /** The end-of-file correction, from the nested run group of the last
      tuple: text not ending in a newline has one more line, paragraph and
      non-blank line; text ending in exactly one trailing newline closes
      one more paragraph. */
  function EndOfFile(c: Counter, lastInner: string): Counter {
    var lf := CountChar(lastInner, '\n');
    if lf == 0 then c.(paragraphs := c.paragraphs + 1, nonBlankLines := c.nonBlankLines + 1, lines := c.lines + 1)
    else if lf == 1 then c.(paragraphs := c.paragraphs + 1)
    else c
  }

  /** The two derived totals. */
  function Derive(c: Counter): Counter {
    var noSpaces := c.words + c.punctuations + c.others;
    c.(charsNoSpaces := noSpaces, charsWithSpaces := noSpaces + c.whitespaces)
  }

  /** The counter of one decoded file; `None` when `findall` finds nothing
      and the loop moves on without counting. */
  function FileCounts(text: string, isWord: char -> bool): (r: Option<Counter>)
    ensures r.None? <==> text == []
    ensures r.Some? ==> Get(r.value, CharsNoSpaces) == Get(r.value, Words) + Get(r.value, Punctuations) + Get(r.value, Others)
    ensures r.Some? ==> Get(r.value, CharsWithSpaces) == Get(r.value, CharsNoSpaces) + Get(r.value, Whitespaces)
  {
    var gs := GroupsOf(FindAll(text, isWord));
    if gs == [] then None
    else
      var e := EndOfFile(CountAll(Empty(), gs), gs[|gs| - 1][6]);
      DeriveTotals(e);
      Some(Derive(e))
  }

  /** The derived totals: the characters without spaces are the words,
      punctuation and other characters, and the characters with spaces add
      the whitespace. */
  lemma DeriveTotals(e: Counter)
    ensures Get(Derive(e), CharsNoSpaces) == Get(Derive(e), Words) + Get(Derive(e), Punctuations) + Get(Derive(e), Others)
    ensures Get(Derive(e), CharsWithSpaces) == Get(Derive(e), CharsNoSpaces) + Get(Derive(e), Whitespaces)
  {
  }

  // ----- rendering -----

  /** The report's column widths: the caption column, the count column
      and the separator line. */
  function CaptionWidth(): nat { 28 }
  function CountWidth(): nat { 8 }
  function SepsWidth(): nat { 36 }

  /** `line(key, name)`: the label and a colon left-justified to 28
      columns, the count right-justified to 8, a newline. */
  function Line(c: Counter, key: Key, name: Option<string>): string {
    LJust(Caption(key, name) + ":", CaptionWidth()) + RJust(IntToDecimal(Get(c, key)), CountWidth()) + "\n"
  }

  /** The label of a line: the given name, else the key title-cased. */
  function Caption(key: Key, name: Option<string>): string {
    if name.Some? then name.value else Title(KeyName(key))
  }

  /** The `seps` property. */
  function Seps(sep: string): string {
    Repeat(sep, SepsWidth()) + "\n"
  }

  /** The `description` getter. */
  function DescriptionOf(d: string): string {
    if d != "" then d + "\n\n" else d
  }

  /** The count lines of `__str__`, after the header, the separator line
      and the description. */
  function Body(c: Counter): string {
    Concat([
      Line(c, Paragraphs, None),
      Line(c, NonBlankLines, Some("Non-Blank Lines")),
      Line(c, Lines, None),
      "\n",
      Line(c, Words, None),
      Line(c, Cjk, Some("Chinese")),
      Line(c, Hiragana, None),
      Line(c, Katakana, None),
      Line(c, Punctuations, None),
      Line(c, Whitespaces, None),
      Line(c, Others, Some("Other Characters")),
      "\n",
      Line(c, CharsNoSpaces, Some("Characters (no spaces)")),
      Line(c, CharsWithSpaces, Some("Characters (with spaces)"))])
  }

  /** `str(stats)` for a counter with the given stored settings. */
  function Render(header: string, sep: string, description: string, c: Counter): (r: string)
    ensures |r| > |header| + 1 + SepsWidth() * |sep|
    ensures r[..|header|] == header && r[|header|] == '\n'
    ensures |sep| == 1 ==> forall i :: |header| < i <= |header| + SepsWidth() ==> r[i] == sep[0]
    ensures r[|header| + 1 + SepsWidth() * |sep|] == '\n'
    ensures description != "" ==>
      && |r| >= |header| + 2 + SepsWidth() * |sep| + |description| + 2
      && r[|header| + 2 + SepsWidth() * |sep|..][..|description| + 2] == description + "\n\n"
    ensures EndsWith(r, Body(c))
  {
    ReportShape(header, sep, description, Body(c));
    header + "\n" + Seps(sep) + DescriptionOf(description) + Body(c)
  }

  /** The layout of a report with its description, whatever its count
      lines. */
  lemma ReportShape(header: string, sep: string, description: string, body: string)
    ensures var r := header + "\n" + Seps(sep) + DescriptionOf(description) + body;
      && |r| > |header| + 1 + SepsWidth() * |sep|
      && r[..|header|] == header && r[|header|] == '\n'
      && (|sep| == 1 ==> forall i :: |header| < i <= |header| + SepsWidth() ==> r[i] == sep[0])
      && r[|header| + 1 + SepsWidth() * |sep|] == '\n'
      && (description != "" ==>
        && |r| >= |header| + 2 + SepsWidth() * |sep| + |description| + 2
        && r[|header| + 2 + SepsWidth() * |sep|..][..|description| + 2] == description + "\n\n")
      && EndsWith(r, body)
  {
    RenderShape(header, sep, DescriptionOf(description), body);
  }

  /** The layout of a report, whatever its description and count lines. */
  lemma RenderShape(header: string, sep: string, d: string, body: string)
    ensures var r := header + "\n" + Seps(sep) + d + body;
      && |r| == |header| + 2 + SepsWidth() * |sep| + |d| + |body|
      && r[..|header|] == header && r[|header|] == '\n'
      && (|sep| == 1 ==> forall i :: |header| < i <= |header| + SepsWidth() ==> r[i] == sep[0])
      && r[|header| + 1 + SepsWidth() * |sep|] == '\n'
      && r[|header| + 2 + SepsWidth() * |sep|..][..|d|] == d
      && EndsWith(r, body)
  {
    RepeatOne(sep, SepsWidth());
    var rule := Repeat(sep, SepsWidth());
    var r := header + "\n" + Seps(sep) + d + body;
    assert r == header + "\n" + rule + "\n" + d + body;
    assert r[|header| + 1..][..|rule|] == rule;
    assert r[|header| + 2 + |rule|..] == d + body;
    assert r[|r| - |body|..] == body;
  }

  /** `_Stats`: a counter with a header, a one-character separator and a
      description, all stored stripped. */
  class Stats {
    var counts: Counter
    var header: string
    var sep: string
    var description: string

    /** `_Stats()`: the class defaults. */
    constructor()
      ensures counts == Empty() && header == "STATISTICS" && sep == "=" && description == ""
    {
      counts := Empty();
      header := "STATISTICS";
      sep := "=";
      description := "";
    }

    /** The `header` setter. */
    method SetHeader(value: string)
      modifies this
      ensures header == Strip(value)
      ensures counts == old(counts) && sep == old(sep) && description == old(description)
    {
      header := Strip(value);
    }

    /** The `sep` setter: anything but one character fails its assertion
      and leaves the separator as it was. */
    method SetSep(value: string) returns (r: Result<()>)
      modifies this
      ensures r.Ok? <==> |value| == 1
      ensures r.Err? ==> r.error == AssertionError
      ensures sep == (if r.Ok? then value else old(sep))
      ensures counts == old(counts) && header == old(header) && description == old(description)
    {
      if |value| != 1 {
        return Err(AssertionError);
      }
      sep := value;
      r := Ok(());
    }

    /** The `description` setter. */
    method SetDescription(value: string)
      modifies this
      ensures description == Strip(value)
      ensures counts == old(counts) && header == old(header) && sep == old(sep)
    {
      description := Strip(value);
    }

    /** `__init__(header, sep, description)`: each given setting goes
      through its setter in turn; a rejected separator raises before the
      description is set. */
    method Init(h: Option<string>, s: Option<string>, d: Option<string>) returns (r: Result<()>)
      modifies this
      ensures r.Ok? <==> (s.None? || |s.value| == 1)
      ensures counts == old(counts)
      ensures header == (if h.Some? then Strip(h.value) else old(header))
      ensures sep == (if r.Ok? && s.Some? then s.value else old(sep))
      ensures description == (if r.Ok? && d.Some? then Strip(d.value) else old(description))
    {
      if h.Some? {
        SetHeader(h.value);
      }
      if s.Some? {
        r := SetSep(s.value);
        if r.Err? {
          return;
        }
      }
      if d.Some? {
        SetDescription(d.value);
      }
      r := Ok(());
    }

    function HeaderText(): string
      reads this
    {
      header + "\n"
    }

    function SepsText(): string
      reads this
    {
      Seps(sep)
    }

    /** `str(self)` */
    function Text(): string
      reads this
    {
      Render(header, sep, description, counts)
    }

    /** The loop over the match tuples. */
    method CountMatches(gs: seq<seq<string>>)
      requires Tuples(gs)
      modifies this
      ensures counts == CountAll(old(counts), gs)
      ensures header == old(header) && sep == old(sep) && description == old(description)
    {
      for i := 0 to |gs|
        invariant CountAll(counts, gs[i..]) == CountAll(old(counts), gs)
        invariant header == old(header) && sep == old(sep) && description == old(description)
      {
        ghost var before := counts;
        assert gs[i..][0] == gs[i] && gs[i..][1..] == gs[i + 1..];
        var g := gs[i];
        var j, k, l, m, n, o, p, q := g[0], g[1], g[2], g[3], g[4], g[5], g[7], g[8];
        if j != "" {
          counts := counts.(cjk := counts.cjk + 1);
          counts := counts.(words := counts.words + 1);
        } else if k != "" {
          counts := counts.(hiragana := counts.hiragana + 1);
          counts := counts.(words := counts.words + 1);
        } else if l != "" {
          counts := counts.(katakana := counts.katakana + 1);
          counts := counts.(words := counts.words + 1);
        } else if m != "" {
          counts := counts.(words := counts.words + 1);
        } else if n != "" {
          counts := counts.(punctuations := counts.punctuations + 1);
        } else if o != "" {
          var lf := CountChar(o, '\n');
          if lf > 1 {
            counts := counts.(paragraphs := counts.paragraphs + 1);
          }
          counts := counts.(nonBlankLines := counts.nonBlankLines + 1);
          counts := counts.(lines := counts.lines + lf);
          counts := counts.(whitespaces := counts.whitespaces + |p|);
        } else if p != "" {
          counts := counts.(whitespaces := counts.whitespaces + 1);
        } else if q != "" {
          counts := counts.(others := counts.others + 1);
        }
        assert counts == Step(before, g);
      }
      assert gs[|gs|..] == [];
    }

    /** The correction from the last tuple's nested run group. */
    method CountEndOfFile(lastInner: string)
      modifies this
      ensures counts == EndOfFile(old(counts), lastInner)
      ensures header == old(header) && sep == old(sep) && description == old(description)
    {
      var lf := CountChar(lastInner, '\n');
      if lf == 0 {
        counts := counts.(paragraphs := counts.paragraphs + 1);
        counts := counts.(nonBlankLines := counts.nonBlankLines + 1);
        counts := counts.(lines := counts.lines + 1);
      } else if lf == 1 {
        counts := counts.(paragraphs := counts.paragraphs + 1);
      }
    }

    /** The two derived totals. */
    method DeriveTotals()
      modifies this
      ensures counts == Derive(old(counts))
      ensures header == old(header) && sep == old(sep) && description == old(description)
    {
      counts := counts.(charsNoSpaces := counts.words + counts.punctuations + counts.others);
      counts := counts.(charsWithSpaces := counts.charsNoSpaces + counts.whitespaces);
    }

    /** `self.update(other)` */
    method UpdateFrom(other: Stats)
      modifies this
      ensures counts == Update(old(counts), old(other.counts))
      ensures header == old(header) && sep == old(sep) && description == old(description)
    {
      counts := Update(counts, other.counts);
    }
  }

  // ----- the whole run -----

  /** What `open(i, encoding='utf-8').read()` gives for a selected file;
      `None` when it does not decode. */
  function ReadText(root: Node, i: RelPath): Option<string> {
    match Lookup(root, i)
    case Some(File(t)) => t
    case _ => None
  }

  /** The state the loop carries: the summed counter, the number of files
      that decoded, and the rendered per-file counters of verbose mode. */
  datatype Progress = Progress(total: Counter, count: nat, details: seq<string>)

  /** The rendered counter of one file in verbose mode: its path as
      header, `-` as separator, no description. */
  function Detail(name: string, c: Counter): string {
    Render(Strip(name), "-", "", c)
  }

  /** The effect of one decoded file on the loop state, given what
      `FileCounts` made of its text. */
  function Absorb(pr: Progress, fc: Option<Counter>, name: string, verbose: bool): Progress {
    match fc
    case None => pr.(count := pr.count + 1)
    case Some(c) =>
      Progress(Update(pr.total, c), pr.count + 1,
               if verbose then pr.details + [Detail(name, c)] else pr.details)
  }

  /** One pass of the loop over the files. */
  function Visit(pr: Progress, root: Node, i: RelPath, isWord: char -> bool, verbose: bool): Progress {
    match ReadText(root, i)
    case None => pr
    case Some(t) => Absorb(pr, FileCounts(t, isWord), PathText(i), verbose)
  }

  /** The loop over the files, from the first to the last. */
  function Tour(root: Node, files: seq<RelPath>, isWord: char -> bool, verbose: bool): Progress {
    if files == [] then Progress(Empty(), 0, [])
    else Visit(Tour(root, files[..|files| - 1], isWord, verbose), root, files[|files| - 1], isWord, verbose)
  }

  /** The `Files:` line that becomes the summary's description. */
  function FilesLine(count: nat): string {
    LJust("Files:", CaptionWidth()) + RJust(IntToDecimal(count), CountWidth())
  }

  /** The message `statistics` prints. */
  function Report(root: Node, path: PathArg, includes: Option<seq<string>>, excludes: Option<seq<string>>,
                  recursive: bool, verbose: bool, isWord: char -> bool): string
  {
    var files := ScriptsFilter.Selected(root, PathObj(ToPath(path)), includes, excludes, recursive);
    var pr := Tour(root, files, isWord, verbose);
    var message := Render("STATISTICS", "=", Strip(FilesLine(pr.count)), pr.total);
    if verbose then message + "\n\n\nDETAILS\n" + Seps("=") + "\n\n" + Join("\n\n", pr.details)
    else message
  }

  /** The counting of one decoded file, up to `stats.update(_stats)`:
      `found` is false when `findall` finds nothing and the loop moves on. */
  method CountFile(name: string, text: string, isWord: char -> bool) returns (s: Stats, found: bool)
    ensures fresh(s)
    ensures found <==> FileCounts(text, isWord).Some?
    ensures found ==> s.counts == FileCounts(text, isWord).value
    ensures s.header == Strip(name) && s.sep == "-" && s.description == ""
  {
    s := new Stats();
    var ok := s.Init(Some(name), Some("-"), None);
    assert |"-"| == 1;
    assert s.header == Strip(name) && s.sep == "-";
    var groups := GroupsOf(FindAll(text, isWord));
    if groups == [] {
      return s, false;
    }
    ghost var expected := Derive(EndOfFile(CountAll(Empty(), groups), groups[|groups| - 1][6]));
    assert FileCounts(text, isWord) == Some(expected);
    s.CountMatches(groups);
    s.CountEndOfFile(groups[|groups| - 1][6]);
    s.DeriveTotals();
    assert s.counts == expected;
    found := true;
  }

  /** The tail of one pass of the loop: the file's counter `s` is added
      to the summary and, in verbose mode, rendered into the details;
      when `findall` found nothing only the file count moves. */
  method Merge(stats: Stats, s: Stats, ghost fc: Option<Counter>, found: bool, name: string,
               verbose: bool, count: nat, details: seq<string>)
    returns (count': nat, details': seq<string>)
    requires s != stats
    requires found <==> fc.Some?
    requires found ==> s.counts == fc.value
    requires s.header == Strip(name) && s.sep == "-" && s.description == ""
    modifies stats
    ensures Absorb(Progress(old(stats.counts), count, details), fc, name, verbose) ==
      Progress(stats.counts, count', details')
    ensures stats.header == old(stats.header) && stats.sep == old(stats.sep)
    ensures stats.description == old(stats.description)
  {
    if !found {
      return count + 1, details;
    }
    count', details' := AddFile(stats, s, fc.value, name, verbose, count, details);
  }

  /** A file with text: its counter is added to the summary and, in
      verbose mode, its rendering to the details. */
  method AddFile(stats: Stats, s: Stats, ghost c: Counter, name: string,
                 verbose: bool, count: nat, details: seq<string>)
    returns (count': nat, details': seq<string>)
    requires s != stats
    requires s.counts == c
    requires s.header == Strip(name) && s.sep == "-" && s.description == ""
    modifies stats
    ensures stats.counts == Update(old(stats.counts), c) && count' == count + 1
    ensures details' == if verbose then details + [Detail(name, c)] else details
    ensures stats.header == old(stats.header) && stats.sep == old(stats.sep)
    ensures stats.description == old(stats.description)
  {
    var line := s.Text();
    assert line == Detail(name, c);
    stats.UpdateFrom(s);
    count', details' := count + 1, details;
    if verbose {
      details' := details + [line];
    }
  }

  /** One pass of the loop of `statistics` over the files: an undecodable
      file is skipped, a decodable one is counted, and one with text is
      added to the summary and, in verbose mode, to the details. */
  method TakeFile(stats: Stats, root: Node, i: RelPath, isWord: char -> bool, verbose: bool,
                  count: nat, details: seq<string>)
    returns (count': nat, details': seq<string>)
    modifies stats
    ensures Visit(Progress(old(stats.counts), count, details), root, i, isWord, verbose) ==
      Progress(stats.counts, count', details')
    ensures stats.header == old(stats.header) && stats.sep == old(stats.sep)
    ensures stats.description == old(stats.description)
  {
    var raw := ReadText(root, i);
    if raw.None? {
      return count, details;
    }
    var s, found := CountFile(PathText(i), raw.value, isWord);
    count', details' := Merge(stats, s, FileCounts(raw.value, isWord), found, PathText(i), verbose, count, details);
  }

  /** The loop of `statistics` over the selected files: the summed
      counter, the number of files that decoded and, in verbose mode, the
      rendered counter of each file that had text. */
  method Survey(root: Node, files: seq<RelPath>, isWord: char -> bool, verbose: bool)
    returns (stats: Stats, count: nat, details: seq<string>)
    ensures fresh(stats)
    ensures Tour(root, files, isWord, verbose) == Progress(stats.counts, count, details)
    ensures stats.header == "STATISTICS" && stats.sep == "=" && stats.description == ""
  {
    details := [];
    stats := new Stats();
    count := 0;
    for k := 0 to |files|
      invariant fresh(stats)
      invariant Tour(root, files[..k], isWord, verbose) == Progress(stats.counts, count, details)
      invariant stats.header == "STATISTICS" && stats.sep == "=" && stats.description == ""
    {
      assert files[..k + 1][..k] == files[..k];
      count, details := TakeFile(stats, root, files[k], isWord, verbose, count, details);
    }
    assert files[..|files|] == files;
  }

  /** `statistics(path, include, exclude, recursive, verbose)`, returning
      the message it prints. */
  method Statistics(root: Node, path: PathArg, includes: Option<seq<string>>, excludes: Option<seq<string>>,
                    recursive: bool, verbose: bool, isWord: char -> bool)
    returns (message: string)
    ensures message == Report(root, path, includes, excludes, recursive, verbose, isWord)
  {
    var p := ToPath(path);
    var files := ScriptsFilter.Filter(root, PathObj(p), includes, excludes, recursive);
    var stats, count, details := Survey(root, files, isWord, verbose);
    stats.SetDescription(FilesLine(count));
    message := stats.Text();
    if verbose {
      message := message + "\n\n\nDETAILS\n" + stats.SepsText() + "\n\n" + Join("\n\n", details);
    }
  }
}
