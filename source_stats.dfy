/** `statistics` of source/stats.py: the older variant of the counter.
    Its pattern keeps the CJK ideographs and the CJK extensions in two
    groups, its newline-run branch counts the whole run as whitespace, it
    has no guard for a file without matches (such a file raises
    `IndexError` at `_groups[-1]` and ends the run), every per-file header
    is the path argument, and the report has no description and no file
    count. The report lines, separator line and count rendering are those
    of the scripts variant. */
module SourceStats {
  import opened Py
  import opened PyText
  import opened FsTree
  import opened Tally
  import opened StatsPattern
  import SourceFilter
  import ScriptsStats

  // ----- the group tuples of the ten-group pattern -----

  /** The tuple `re.findall` yields for one match: the matched text in the
      group of its alternative and `''` in the others. A newline run fills
      the outer group (index 6) and the nested one (index 7). */
  function Groups(f: Found): (g: seq<string>)
    ensures |g| == 10
  {
    var t := f.text;
    [ if f.kind == IdeographMatch then t else "",
      if f.kind == ExtensionMatch then t else "",
      if f.kind == HiraganaMatch then t else "",
      if f.kind == KatakanaMatch then t else "",
      if f.kind == WordMatch then t else "",
      if f.kind == SymbolMatch then t else "",
      if f.kind == RunMatch then t else "",
      if f.kind == RunMatch then f.inner else "",
      if f.kind == SpaceMatch then t else "",
      if f.kind == DotMatch then t else "" ]
  }

  function GroupsOf(fs: seq<Found>): (gs: seq<seq<string>>)
    ensures |gs| == |fs|
    ensures forall i :: 0 <= i < |fs| ==> gs[i] == Groups(fs[i])
  {
    seq(|fs|, i requires 0 <= i < |fs| => Groups(fs[i]))
  }

  predicate Tuples(gs: seq<seq<string>>) {
    forall i :: 0 <= i < |gs| ==> |gs[i]| == 10
  }

  // ----- counting, as functions -----

  /** One pass of the `for j, k, l, m, n, o, p, _, q, r in _groups` body:
      the first non-empty group decides. */
  function Step(c: Counter, g: seq<string>): Counter
    requires |g| == 10
  {
    var j := g[0];
    var k := g[1];
    var l := g[2];
    var m := g[3];
    var n := g[4];
    var o := g[5];
    var p := g[6];
    var q := g[8];
    var r := g[9];
    if j != "" then c.(cjk := c.cjk + 1, words := c.words + 1)
    else if k != "" then c.(cjk := c.cjk + 1, words := c.words + 1)
    else if l != "" then c.(hiragana := c.hiragana + 1, words := c.words + 1)
    else if m != "" then c.(katakana := c.katakana + 1, words := c.words + 1)
    else if n != "" then c.(words := c.words + 1)
    else if o != "" then c.(punctuations := c.punctuations + 1)
    else if p != "" then
      var lf := CountChar(p, '\n');
      var c1 := if lf > 1 then c.(paragraphs := c.paragraphs + 1) else c;
      c1.(nonBlankLines := c1.nonBlankLines + 1, lines := c1.lines + lf, whitespaces := c1.whitespaces + |p|)
    else if q != "" then c.(whitespaces := c.whitespaces + 1)
    else if r != "" then c.(others := c.others + 1)
    else c
  }

  /** The whole loop over the tuples, from the first to the last. */
  function CountAll(c: Counter, gs: seq<seq<string>>): Counter
    requires Tuples(gs)
    decreases |gs|
  {
    if gs == [] then c else CountAll(Step(c, gs[0]), gs[1..])
  }

  /** The counter of one decoded file. Without a match `_groups[-1]`
      raises `IndexError`. The end-of-file correction and the derived
      totals are those of the scripts variant, read from group 7. */
  function FileCounts(text: string, isWord: char -> bool): (r: Result<Counter>)
    ensures r.Err? <==> text == []
    ensures r.Err? ==> r.error == IndexError
    ensures r.Ok? ==> Get(r.value, CharsNoSpaces) == Get(r.value, Words) + Get(r.value, Punctuations) + Get(r.value, Others)
    ensures r.Ok? ==> Get(r.value, CharsWithSpaces) == Get(r.value, CharsNoSpaces) + Get(r.value, Whitespaces)
  {
    var gs := GroupsOf(FindAll(text, isWord));
    if gs == [] then Err(IndexError)
    else
      var e := ScriptsStats.EndOfFile(CountAll(Empty(), gs), gs[|gs| - 1][7]);
      ScriptsStats.DeriveTotals(e);
      Ok(ScriptsStats.Derive(e))
  }

  // ----- rendering -----

  /** `str(stats)`: the header, the separator line and the count lines. */
  function Render(header: string, sep: string, c: Counter): (r: string)
    ensures |r| > |header| + 1 + ScriptsStats.SepsWidth() * |sep|
    ensures r[..|header|] == header && r[|header|] == '\n'
    ensures |sep| == 1 ==> forall i :: |header| < i <= |header| + ScriptsStats.SepsWidth() ==> r[i] == sep[0]
    ensures r[|header| + 1 + ScriptsStats.SepsWidth() * |sep|] == '\n'
    ensures EndsWith(r, ScriptsStats.Body(c))
  {
    RenderShape(header, sep, ScriptsStats.Body(c));
    header + "\n" + ScriptsStats.Seps(sep) + ScriptsStats.Body(c)
  }

  /** The layout of the report of the scripts variant, without a
      description. */
  lemma RenderShape(header: string, sep: string, body: string)
    ensures var r := header + "\n" + ScriptsStats.Seps(sep) + body;
      && |r| > |header| + 1 + ScriptsStats.SepsWidth() * |sep|
      && r[..|header|] == header && r[|header|] == '\n'
      && (|sep| == 1 ==> forall i :: |header| < i <= |header| + ScriptsStats.SepsWidth() ==> r[i] == sep[0])
      && r[|header| + 1 + ScriptsStats.SepsWidth() * |sep|] == '\n'
      && EndsWith(r, body)
  {
    ScriptsStats.RenderShape(header, sep, "", body);
    assert header + "\n" + ScriptsStats.Seps(sep) + "" + body == header + "\n" + ScriptsStats.Seps(sep) + body;
  }

  /** The width of the rule under `DETAILS`. */
  function RuleWidth(): nat { 40 }

  /** The verbose tail: a blank line, then `DETAILS`, its rule and the
      per-file reports, one per line. */
  function DetailsText(details: seq<string>): string {
    "\n\n" + Join("\n", ["DETAILS\n" + Repeat("=", RuleWidth()) + "\n"] + details)
  }

  /** `_Stats` of this variant: a counter with a header and a
      one-character separator, the header stored stripped. */
  class Stats {
    var counts: Counter
    var header: string
    var sep: string

    /** `_Stats()`: the class defaults. */
    constructor()
      ensures counts == Empty() && header == "STATISTICS" && sep == "="
    {
      counts := Empty();
      header := "STATISTICS";
      sep := "=";
    }

    /** The `header` setter. */
    method SetHeader(value: string)
      modifies this
      ensures header == Strip(value)
      ensures counts == old(counts) && sep == old(sep)
    {
      header := Strip(value);
    }

    /** The `sep` setter: anything but one character fails its assertion
      and leaves the separator as it was. */
    method SetSep(value: string) returns (r: Result<()>)
      modifies this
      ensures r.Ok? <==> |value| == 1
      ensures r.Err? ==> r.error == AssertionError
      ensures sep == (if r.Ok? then value else old(sep))
      ensures counts == old(counts) && header == old(header)
    {
      if |value| != 1 {
        return Err(AssertionError);
      }
      sep := value;
      r := Ok(());
    }

    /** `__init__(header, sep)`: each given setting goes through its
      setter. */
    method Init(h: Option<string>, s: Option<string>) returns (r: Result<()>)
      modifies this
      ensures r.Ok? <==> (s.None? || |s.value| == 1)
      ensures counts == old(counts)
      ensures header == (if h.Some? then Strip(h.value) else old(header))
      ensures sep == (if r.Ok? && s.Some? then s.value else old(sep))
    {
      if h.Some? {
        SetHeader(h.value);
      }
      if s.Some? {
        r := SetSep(s.value);
        if r.Err? {
          return;
        }
      }
      r := Ok(());
    }

    /** `str(self)` */
    function Text(): string
      reads this
    {
      Render(header, sep, counts)
    }

    /** The loop over the match tuples. */
    method CountMatches(gs: seq<seq<string>>)
      requires Tuples(gs)
      modifies this
      ensures counts == CountAll(old(counts), gs)
      ensures header == old(header) && sep == old(sep)
    {
      for i := 0 to |gs|
        invariant CountAll(counts, gs[i..]) == CountAll(old(counts), gs)
        invariant header == old(header) && sep == old(sep)
      {
        ghost var before := counts;
        assert gs[i..][0] == gs[i] && gs[i..][1..] == gs[i + 1..];
        var g := gs[i];
        var j, k, l, m, n, o, p, q, r := g[0], g[1], g[2], g[3], g[4], g[5], g[6], g[8], g[9];
        if j != "" {
          counts := counts.(cjk := counts.cjk + 1);
          counts := counts.(words := counts.words + 1);
        } else if k != "" {
          counts := counts.(cjk := counts.cjk + 1);
          counts := counts.(words := counts.words + 1);
        } else if l != "" {
          counts := counts.(hiragana := counts.hiragana + 1);
          counts := counts.(words := counts.words + 1);
        } else if m != "" {
          counts := counts.(katakana := counts.katakana + 1);
          counts := counts.(words := counts.words + 1);
        } else if n != "" {
          counts := counts.(words := counts.words + 1);
        } else if o != "" {
          counts := counts.(punctuations := counts.punctuations + 1);
        } else if p != "" {
          var lf := CountChar(p, '\n');
          if lf > 1 {
            counts := counts.(paragraphs := counts.paragraphs + 1);
          }
          counts := counts.(nonBlankLines := counts.nonBlankLines + 1);
          counts := counts.(lines := counts.lines + lf);
          counts := counts.(whitespaces := counts.whitespaces + |p|);
        } else if q != "" {
          counts := counts.(whitespaces := counts.whitespaces + 1);
        } else if r != "" {
          counts := counts.(others := counts.others + 1);
        }
        assert counts == Step(before, g);
      }
      assert gs[|gs|..] == [];
    }

    /** The correction from the last tuple's nested run group. */
    method CountEndOfFile(lastInner: string)
      modifies this
      ensures counts == ScriptsStats.EndOfFile(old(counts), lastInner)
      ensures header == old(header) && sep == old(sep)
    {
      var lf := CountChar(lastInner, '\n');
      if lf == 0 {
        counts := counts.(paragraphs := counts.paragraphs + 1);
        counts := counts.(nonBlankLines := counts.nonBlankLines + 1);
        counts := counts.(lines := counts.lines + 1);
      } else if lf == 1 {
        counts := counts.(paragraphs := counts.paragraphs + 1);
      }
    }

    /** The two derived totals. */
    method DeriveTotals()
      modifies this
      ensures counts == ScriptsStats.Derive(old(counts))
      ensures header == old(header) && sep == old(sep)
    {
      counts := counts.(charsNoSpaces := counts.words + counts.punctuations + counts.others);
      counts := counts.(charsWithSpaces := counts.charsNoSpaces + counts.whitespaces);
    }

    /** `self.update(other)` */
    method UpdateFrom(other: Stats)
      modifies this
      ensures counts == Update(old(counts), old(other.counts))
      ensures header == old(header) && sep == old(sep)
    {
      counts := Update(counts, other.counts);
    }
  }

  // ----- the whole run -----

  /** The state the loop carries: the summed counter and, in verbose
      mode, the rendered per-file counters. */
  datatype Progress = Progress(total: Counter, details: seq<string>)

  /** The rendered counter of one file in verbose mode: the path argument
      as header and `-` as separator. */
  function Detail(name: string, c: Counter): string {
    Render(Strip(name), "-", c)
  }

  /** The effect of one decoded file on the loop state, given what
      `FileCounts` made of its text: an error ends the run. */
  function Absorb(pr: Progress, fc: Result<Counter>, name: string, verbose: bool): Result<Progress> {
    match fc
    case Err(e) => Err(e)
    case Ok(c) =>
      Ok(Progress(Update(pr.total, c), if verbose then pr.details + [Detail(name, c)] else pr.details))
  }

  /** One pass of the loop over the files; `name` is `str(path)`. */
  function Visit(pr: Progress, root: Node, name: string, i: RelPath, isWord: char -> bool,
                 verbose: bool): Result<Progress>
  {
    match ScriptsStats.ReadText(root, i)
    case None => Ok(pr)
    case Some(t) => Absorb(pr, FileCounts(t, isWord), name, verbose)
  }

  /** The loop over the files, from the first to the last, up to the
      first error. */
  function Tour(root: Node, name: string, files: seq<RelPath>, isWord: char -> bool,
                verbose: bool): Result<Progress>
  {
    if files == [] then Ok(Progress(Empty(), []))
    else
      match Tour(root, name, files[..|files| - 1], isWord, verbose)
      case Err(e) => Err(e)
      case Ok(pr) => Visit(pr, root, name, files[|files| - 1], isWord, verbose)
  }

  /** The message `statistics` prints, or the error it raises. */
  function Report(root: Node, path: PathArg, includes: Option<seq<string>>, excludes: Option<seq<string>>,
                  recursive: bool, verbose: bool, isWord: char -> bool): Result<string>
  {
    var p := ToPath(path);
    var files := SourceFilter.Selected(root, PathObj(p), includes, excludes, recursive);
    match Tour(root, PathText(p), files, isWord, verbose)
    case Err(e) => Err(e)
    case Ok(pr) =>
      var message := Render("STATISTICS", "=", pr.total);
      Ok(if verbose then message + DetailsText(pr.details) else message)
  }

  /** The counting of one decoded file, up to `stats.update(_stats)`:
      `found` is false when `findall` finds nothing, where the source
      raises. */
  method CountFile(name: string, text: string, isWord: char -> bool) returns (s: Stats, found: bool)
    ensures fresh(s)
    ensures found <==> FileCounts(text, isWord).Ok?
    ensures found ==> s.counts == FileCounts(text, isWord).value
    ensures s.header == Strip(name) && s.sep == "-"
  {
    s := new Stats();
    var ok := s.Init(Some(name), Some("-"));
    assert |"-"| == 1;
    assert s.header == Strip(name) && s.sep == "-";
    var groups := GroupsOf(FindAll(text, isWord));
    if groups == [] {
      return s, false;
    }
    ghost var expected := ScriptsStats.Derive(ScriptsStats.EndOfFile(CountAll(Empty(), groups), groups[|groups| - 1][7]));
    assert FileCounts(text, isWord) == Ok(expected);
    s.CountMatches(groups);
    s.CountEndOfFile(groups[|groups| - 1][7]);
    s.DeriveTotals();
    assert s.counts == expected;
    found := true;
  }

  /** The tail of one pass of the loop: the file's counter `s` is added
      to the summary and, in verbose mode, rendered into the details; a
      file without matches ends the run with `IndexError`. */
  method Merge(stats: Stats, s: Stats, ghost fc: Result<Counter>, found: bool, name: string,
               verbose: bool, details: seq<string>)
    returns (failed: bool, details': seq<string>)
    requires s != stats
    requires found <==> fc.Ok?
    requires fc.Err? ==> fc.error == IndexError
    requires found ==> s.counts == fc.value
    requires s.header == Strip(name) && s.sep == "-"
    modifies stats
    ensures failed <==> fc.Err?
    ensures !failed ==>
      Absorb(Progress(old(stats.counts), details), fc, name, verbose) == Ok(Progress(stats.counts, details'))
    ensures stats.header == old(stats.header) && stats.sep == old(stats.sep)
  {
    details' := details;
    if !found {
      return true, details';
    }
    failed := false;
    assert s.Text() == Detail(name, fc.value);
    stats.UpdateFrom(s);
    if verbose {
      details' := details + [s.Text()];
    }
  }

  /** One pass of the loop of `statistics` over the files: an undecodable
      file is skipped, a decodable one is counted, added to the summary
      and, in verbose mode, to the details, and one without matches ends
      the run. */
  method TakeFile(stats: Stats, root: Node, name: string, i: RelPath, isWord: char -> bool,
                  verbose: bool, details: seq<string>)
    returns (failed: bool, details': seq<string>)
    modifies stats
    ensures var v := Visit(Progress(old(stats.counts), details), root, name, i, isWord, verbose);
      && (failed <==> v.Err?)
      && (v.Err? ==> v.error == IndexError)
      && (v.Ok? ==> v.value == Progress(stats.counts, details'))
    ensures stats.header == old(stats.header) && stats.sep == old(stats.sep)
  {
    var raw := ScriptsStats.ReadText(root, i);
    if raw.None? {
      return false, details;
    }
    var s, found := CountFile(name, raw.value, isWord);
    failed, details' := Merge(stats, s, FileCounts(raw.value, isWord), found, name, verbose, details);
  }

  /** The loop of `statistics` over the selected files, up to the first
      file without matches. */
  method Survey(root: Node, name: string, files: seq<RelPath>, isWord: char -> bool, verbose: bool)
    returns (stats: Stats, failed: bool, details: seq<string>)
    ensures fresh(stats)
    ensures var t := Tour(root, name, files, isWord, verbose);
      && (failed <==> t.Err?)
      && (t.Err? ==> t.error == IndexError)
      && (t.Ok? ==> t.value == Progress(stats.counts, details))
    ensures stats.header == "STATISTICS" && stats.sep == "="
  {
    details := [];
    stats := new Stats();
    failed := false;
    for k := 0 to |files|
      invariant fresh(stats)
      invariant Tour(root, name, files[..k], isWord, verbose) == Ok(Progress(stats.counts, details))
      invariant stats.header == "STATISTICS" && stats.sep == "="
    {
      assert files[..k + 1][..k] == files[..k];
      failed, details := TakeFile(stats, root, name, files[k], isWord, verbose, details);
      if failed {
        TourStopsAtError(root, name, files, k + 1, isWord, verbose);
        return;
      }
    }
    assert files[..|files|] == files;
  }

  /** An error at some file is the error of the whole loop. */
  lemma {:induction false} TourStopsAtError(root: Node, name: string, files: seq<RelPath>, k: nat,
                                            isWord: char -> bool, verbose: bool)
    requires k <= |files| && Tour(root, name, files[..k], isWord, verbose).Err?
    ensures Tour(root, name, files, isWord, verbose) == Tour(root, name, files[..k], isWord, verbose)
    decreases |files| - k
  {
    if k < |files| {
      assert files[..k + 1][..k] == files[..k];
      TourStopsAtError(root, name, files, k + 1, isWord, verbose);
    } else {
      assert files[..k] == files;
    }
  }

  /** `statistics(path, include, exclude, recursive, verbose)`, returning
      the message it prints or the error it raises. */
  method Statistics(root: Node, path: PathArg, includes: Option<seq<string>>, excludes: Option<seq<string>>,
                    recursive: bool, verbose: bool, isWord: char -> bool)
    returns (r: Result<string>)
    ensures r == Report(root, path, includes, excludes, recursive, verbose, isWord)
  {
    var p := ToPath(path);
    var files := SourceFilter.Filter(root, PathObj(p), includes, excludes, recursive);
    var stats, failed, details := Survey(root, PathText(p), files, isWord, verbose);
    if failed {
      return Err(IndexError);
    }
    var message := stats.Text();
    if verbose {
      message := message + DetailsText(details);
    }
    r := Ok(message);
  }
}
