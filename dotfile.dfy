/** The dotfile template renderer: each line of a template is split into
    shell-like tokens, the tokens between an opening and a closing delimiter
    form a tag whose value is substituted (shell-quoted) into the line, and
    `deploy` writes the rendered lines to the target after keeping the old
    target as `<to>.prev`. A line matching `# stop` ends rendering: it is
    dropped and the rest of the file is copied as it is. */
module Dotfile {
  import opened Py
  import opened PyText
  import opened Shell
  import Tag

  /** The two groups of `__line_pattern`. */
  datatype LineParts = LineParts(lws: string, body: string)

  /** `__line_pattern.fullmatch(line)`: the line must end in a newline and
      hold no other newline after its leading whitespace; the leading
      whitespace is taken greedily, so the body does not start with a
      space. */
  function MatchLine(line: string): (m: Option<LineParts>)
    ensures m.Some? <==> line != [] && line[|line| - 1] == '\n' && '\n' !in LStrip(line[..|line| - 1])
    ensures m.Some? ==> && line == m.value.lws + m.value.body + "\n"
                        && AllSpace(m.value.lws)
                        && (m.value.body == [] || !IsSpace(m.value.body[0]))
                        && '\n' !in m.value.body
  {
    if line == [] || line[|line| - 1] != '\n' then None
    else
      var c := line[..|line| - 1];
      var body := LStrip(c);
      if '\n' in body then None
      else
        LineSplit(line);
        Some(LineParts(c[..|c| - |body|], body))
  }

  /** A newline-terminated line is its leading whitespace, the stripped
      rest and the newline. */
  lemma LineSplit(line: string)
    requires line != [] && line[|line| - 1] == '\n'
    ensures var c := line[..|line| - 1];
      line == c[..|c| - |LStrip(c)|] + LStrip(c) + "\n"
  {
    var c := line[..|line| - 1];
    var body := LStrip(c);
    var ws := c[..|c| - |body|];
    assert c == ws + body by {
      assert body == c[|c| - |body|..];
    }
    assert line == c + "\n";
  }

  /** `f'"{token}"'` when the token contains whitespace. */
  function WrapSpaced(token: string): string {
    if HasSpace(token) then "\"" + token + "\"" else token
  }

  /** The renderer's state while it walks the tokens of a line: the pieces
      of the output line (`__line`), the tokens of the open tag
      (`__tag_tokens`) and whether a tag is open (`active`). */
  datatype Injector = Injector(line: seq<string>, tagTokens: seq<string>, active: bool)

  /** One iteration of the token loop of `_line_inject`. Outside a tag, a
      token that does not end with the left delimiter, or that contains
      whitespace, is copied followed by a space; otherwise it opens a tag
      and what precedes the delimiter is copied. Inside a tag, a token that
      does not start with the right delimiter, or that contains whitespace,
      is a tag argument; otherwise the tag is evaluated, its value quoted
      into the line, and what follows the delimiter is copied. */
  function InjectStep(registry: map<string, Tag.Handler>, env: Tag.Env, ld: string, rd: string,
                      st: Injector, token: string): Result<Injector>
  {
    if !st.active then
      if !EndsWith(token, ld) || HasSpace(token) then
        Ok(st.(line := st.line + [WrapSpaced(token) + " "]))
      else
        Ok(st.(line := st.line + [RStripChars(token, ld)], active := true))
    else if !StartsWith(token, rd) || HasSpace(token) then
      Ok(st.(tagTokens := st.tagTokens + [token]))
    else
      var value :- Tag.EvaluateStr(registry, st.tagTokens, env);
      var rest := LStripChars(token, rd);
      Ok(Injector(st.line + [Quote(value)] + (if rest != "" then [rest + " "] else []), [], false))
  }

  /** The whole token loop. */
  function InjectTokens(registry: map<string, Tag.Handler>, env: Tag.Env, ld: string, rd: string,
                        st: Injector, tokens: seq<string>): Result<Injector>
    decreases |tokens|
  {
    if tokens == [] then Ok(st)
    else
      var next :- InjectStep(registry, env, ld, rd, st, tokens[0]);
      InjectTokens(registry, env, ld, rd, next, tokens[1..])
  }

  /** The state `_line_inject` leaves once the token loop is over. */
  function FinalState(registry: map<string, Tag.Handler>, env: Tag.Env, ld: string, rd: string,
                      text: string): Result<Injector>
  {
    match MatchLine(text)
    case None => Err(AssertionError)
    case Some(m) =>
      var tokens :- Split(m.body);
      InjectTokens(registry, env, ld, rd, Injector([m.lws], [], false), tokens)
  }

  /** `_line_inject(line)`: the pieces joined, trailing whitespace removed,
      one newline added. */
  function Inject(registry: map<string, Tag.Handler>, env: Tag.Env, ld: string, rd: string,
                  text: string): (r: Result<string>)
    ensures r.Ok? ==> |r.value| >= 1 && r.value[|r.value| - 1] == '\n'
    ensures r.Ok? ==> |r.value| == 1 || !IsSpace(r.value[|r.value| - 2])
    ensures MatchLine(text).None? ==> r == Err(AssertionError)
  {
    var st :- FinalState(registry, env, ld, rd, text);
    Ok(RStrip(Concat(st.line)) + "\n")
  }

  /** The letters of `stop` under `re.IGNORECASE`; `s` also matches the
      long s (U+017F). */
  predicate StopLetter(c: char, k: nat) {
    match k
    case 0 => c == 's' || c == 'S' || c == '\U{017F}'
    case 1 => c == 't' || c == 'T'
    case 2 => c == 'o' || c == 'O'
    case 3 => c == 'p' || c == 'P'
    case _ => false
  }

  /** `__stop_parsing.fullmatch(line)` for `\s*#\s*stop\s*`, read as an
      automaton from `state`: 0 before `#`, 1 after it, 2 to 4 after one to
      three letters of `stop`, 5 after all four. Neither `#` nor a letter
      of `stop` is whitespace, so every `\s*` takes exactly the whitespace
      up to the next non-space character, and the last one takes the
      newline. */
  predicate StopFrom(s: string, state: nat)
    decreases |s|
  {
    if s == [] then state == 5
    else
      var c := s[0];
      match state
      case 0 => if IsSpace(c) then StopFrom(s[1..], 0) else c == '#' && StopFrom(s[1..], 1)
      case 1 => if IsSpace(c) then StopFrom(s[1..], 1) else StopLetter(c, 0) && StopFrom(s[1..], 2)
      case 5 => IsSpace(c) && StopFrom(s[1..], 5)
      case _ => state < 5 && StopLetter(c, state - 1) && StopFrom(s[1..], state + 1)
  }

  predicate IsStopLine(line: string) {
    StopFrom(line, 0)
  }

  /** The lines a text file yields when iterated: each keeps its newline,
      and only the last may lack one. */
  function Lines(s: string): (r: seq<string>)
    ensures Concat(r) == s
    ensures forall i :: 0 <= i < |r| ==> r[i] != []
    ensures forall i :: 0 <= i < |r| - 1 ==> r[i][|r[i]| - 1] == '\n'
    decreases |s|
  {
    if s == [] then []
    else if '\n' !in s then [s]
    else
      var k := IndexOf(s, '\n');
      var rest := Lines(s[k + 1..]);
      var r := [s[..k + 1]] + rest;
      assert r[1..] == rest;
      assert s == s[..k + 1] + s[k + 1..];
      r
  }

  /** The index of the first stop line, or the number of lines. */
  function StopAt(lines: seq<string>): (k: nat)
    ensures k <= |lines|
  {
    if lines == [] then 0
    else if IsStopLine(lines[0]) then 0
    else 1 + StopAt(lines[1..])
  }

  /** No line before `StopAt` is a stop line; the one at `StopAt`, if any,
      is. */
  lemma {:induction false} StopAtIsFirst(lines: seq<string>, i: nat)
    requires i < |lines|
    ensures IsStopLine(lines[i]) ==> StopAt(lines) <= i
    ensures i == StopAt(lines) ==> IsStopLine(lines[i])
  {
    if i > 0 && !IsStopLine(lines[0]) {
      assert lines[1..][i - 1] == lines[i];
      StopAtIsFirst(lines[1..], i - 1);
    }
  }

  /** `StopAt` is the first stop line, or the end. */
  lemma StopAtFacts(lines: seq<string>)
    ensures StopAt(lines) < |lines| ==> IsStopLine(lines[StopAt(lines)])
    ensures forall k :: 0 <= k < StopAt(lines) ==> !IsStopLine(lines[k])
  {
    if StopAt(lines) < |lines| {
      StopAtIsFirst(lines, StopAt(lines));
    }
    forall k | 0 <= k < StopAt(lines)
      ensures !IsStopLine(lines[k])
    {
      StopAtIsFirst(lines, k);
    }
  }

  /** The text written for a run of lines and the error that ended it, if
      any: what was written before the failing line stays written. */
  datatype Written = Written(text: string, error: Option<Error>)

  /** The text and the first error of a run of per-line results. */
  function Accumulate(results: seq<Result<string>>): Written
    decreases |results|
  {
    if results == [] then Written("", None)
    else
      var w := Accumulate(results[..|results| - 1]);
      if w.error.Some? then w
      else match results[|results| - 1]
        case Err(e) => Written(w.text, Some(e))
        case Ok(s) => Written(w.text + s, None)
  }

  /** `_line_inject` of every line. */
  function InjectAll(registry: map<string, Tag.Handler>, env: Tag.Env, ld: string, rd: string,
                     lines: seq<string>): (r: seq<Result<string>>)
    ensures |r| == |lines|
  {
    seq(|lines|, k requires 0 <= k < |lines| => Inject(registry, env, ld, rd, lines[k]))
  }

  /** `results[k]` is the rendering of `lines[k]`. */
  predicate RenderedLine(registry: map<string, Tag.Handler>, env: Tag.Env, ld: string, rd: string,
                         lines: seq<string>, results: seq<Result<string>>, k: nat)
    requires k < |lines| == |results|
  {
    results[k] == Inject(registry, env, ld, rd, lines[k])
  }

  predicate RendersTo(registry: map<string, Tag.Handler>, env: Tag.Env, ld: string, rd: string,
                      lines: seq<string>, results: seq<Result<string>>)
  {
    && |results| == |lines|
    && forall k: nat :: k < |lines| ==> RenderedLine(registry, env, ld, rd, lines, results, k)
  }

  lemma InjectAllRenders(registry: map<string, Tag.Handler>, env: Tag.Env, ld: string, rd: string,
                         lines: seq<string>)
    ensures RendersTo(registry, env, ld, rd, lines, InjectAll(registry, env, ld, rd, lines))
  {
    var results := InjectAll(registry, env, ld, rd, lines);
    forall k: nat | k < |lines|
      ensures RenderedLine(registry, env, ld, rd, lines, results, k)
    {
    }
  }

  /** What `deploy` writes for lines rendered to `results`: the rendered
      lines before the first stop line, then every line after it
      unchanged; a failing line ends the output and reports its error. */
  function OutputOf(lines: seq<string>, results: seq<Result<string>>): Written
    requires |results| == |lines|
  {
    var k := StopAt(lines);
    var w := Accumulate(results[..k]);
    if w.error.Some? then w
    else if k < |lines| then Written(w.text + Concat(lines[k + 1..]), None)
    else w
  }

  /** What `deploy` writes for a source text. */
  function Output(registry: map<string, Tag.Handler>, env: Tag.Env, ld: string, rd: string,
                  content: string): Written
  {
    var lines := Lines(content);
    OutputOf(lines, InjectAll(registry, env, ld, rd, lines))
  }

  /** The file tree `deploy` works on: file contents by path. */
  class FileSystem {
    var files: map<string, string>

    constructor(files: map<string, string>)
      ensures this.files == files
    {
      this.files := files;
    }

    /** `if to.exists(): prev.unlink() if prev.exists(); to.rename(prev)` */
    method MoveToPrev(to: string)
      modifies this
      ensures files == Backup(old(files), to)
    {
      if to in files {
        var prev := PrevPath(to);
        if prev in files {
          files := files - {prev};
        }
        var content := files[to];
        files := (files - {to})[prev := content];
      }
    }

    /** `open(to, 'w')`: the file exists and is empty. */
    method Create(to: string)
      modifies this
      ensures files == old(files)[to := ""]
    {
      files := files[to := ""];
    }

    /** `to.write(s)` */
    method Append(to: string, s: string)
      requires to in files
      modifies this
      ensures files == old(files)[to := old(files)[to] + s]
    {
      files := files[to := files[to] + s];
    }
  }

  /** `Path(f'{to}.prev')` */
  function PrevPath(to: string): string {
    to + ".prev"
  }

  /** An existing target is moved to `<to>.prev`, replacing an older
      backup. */
  function Backup(files: map<string, string>, to: string): map<string, string> {
    if to in files then (files - {to})[PrevPath(to) := files[to]] else files
  }

  datatype Deployment = Deployment(files: map<string, string>, outcome: Result<()>)

  /** `deploy()` on a file tree: back up the target, open the source (after
      the backup, so a source that is the target is gone), create the target
      empty and write the output. */
  function Deployed(registry: map<string, Tag.Handler>, env: Tag.Env, ld: string, rd: string,
                    source: string, to: string, files: map<string, string>): Deployment
  {
    var b := Backup(files, to);
    if source !in b then Deployment(b, Err(FileNotFoundError(source)))
    else
      var w := Output(registry, env, ld, rd, b[source]);
      Deployment(b[to := w.text], if w.error.Some? then Err(w.error.value) else Ok(()))
  }

  /** A deployer: source and target paths, the delimiters, and the two
      buffers `_line_inject` reuses from line to line. */
  class DotfileDeployer {
    const source: string
    const to: string
    const ld: string
    const rd: string
    var line: seq<string>
    const tagTokens: Tag.TokenList

    /** `DotfileDeployer(source, to, delimiter=...)`: the delimiters default
        to `{%` and `%}`. */
    constructor(source: string, to: string, delimiter: Option<(string, string)>)
      ensures this.source == source && this.to == to
      ensures (ld, rd) == if delimiter.Some? then delimiter.value else ("{%", "%}")
      ensures line == [] && fresh(tagTokens) && tagTokens.items == []
    {
      this.source := source;
      this.to := to;
      var d := if delimiter.Some? then delimiter.value else ("{%", "%}");
      ld := d.0;
      rd := d.1;
      line := [];
      tagTokens := new Tag.TokenList([]);
    }

    /** `_line_inject(line)`: the buffers are reset, then the token loop
        runs; the result is the one `Inject` describes, and after a
        successful line the buffers hold the final pieces and the tokens of
        a tag left open. */
    method LineInject(reg: Tag.TagRegistry, env: Tag.Env, text: string) returns (r: Result<string>)
      modifies this, tagTokens
      ensures r == Inject(reg.registry, env, ld, rd, text)
      ensures r.Ok? ==> && FinalState(reg.registry, env, ld, rd, text).Ok?
                        && line == FinalState(reg.registry, env, ld, rd, text).value.line
                        && tagTokens.items == FinalState(reg.registry, env, ld, rd, text).value.tagTokens
    {
      var m := MatchLine(text);
      if m.None? {
        return Err(AssertionError);
      }
      tagTokens.items := [];
      line := [m.value.lws];
      var split := Split(m.value.body);
      if split.Err? {
        return Err(split.error);
      }
      var final := RunTokens(reg, env, split.value);
      if final.Err? {
        return Err(final.error);
      }
      r := Ok(RStrip(Concat(line)) + "\n");
    }

    /** The token loop of `_line_inject` from the reset buffers: it ends in
        the state `InjectTokens` describes, or fails as it does. */
    method RunTokens(reg: Tag.TagRegistry, env: Tag.Env, tokens: seq<string>) returns (r: Result<bool>)
      modifies this, tagTokens
      ensures InjectTokens(reg.registry, env, ld, rd, Injector(old(line), old(tagTokens.items), false), tokens)
           == if r.Ok? then Ok(Injector(line, tagTokens.items, r.value)) else Err(r.error)
    {
      ghost var start := Injector(line, tagTokens.items, false);
      var active := false;
      var i := 0;
      while i < |tokens|
        invariant 0 <= i <= |tokens|
        invariant InjectTokens(reg.registry, env, ld, rd, start, tokens)
          == InjectTokens(reg.registry, env, ld, rd, Injector(line, tagTokens.items, active), tokens[i..])
      {
        assert tokens[i..][1..] == tokens[i + 1..];
        var next := Feed(reg, env, tokens[i], active);
        if next.Err? {
          return Err(next.error);
        }
        active := next.value;
        i := i + 1;
      }
      r := Ok(active);
    }

    /** The body of the token loop for one token: the buffers and the new
        value of `active` are the state `InjectStep` describes. */
    method Feed(reg: Tag.TagRegistry, env: Tag.Env, token: string, active: bool) returns (r: Result<bool>)
      modifies this, tagTokens
      ensures r.Err? ==> InjectStep(reg.registry, env, ld, rd, Injector(old(line), old(tagTokens.items), active), token)
                         == Err(r.error)
      ensures r.Ok? ==> InjectStep(reg.registry, env, ld, rd, Injector(old(line), old(tagTokens.items), active), token)
                        == Ok(Injector(line, tagTokens.items, r.value))
    {
      if !active {
        if !EndsWith(token, ld) || HasSpace(token) {
          line := line + [WrapSpaced(token) + " "];
          return Ok(false);
        }
        line := line + [RStripChars(token, ld)];
        return Ok(true);
      }
      if !StartsWith(token, rd) || HasSpace(token) {
        tagTokens.items := tagTokens.items + [token];
        return Ok(true);
      }
      var value := Tag.TagParseStr(tagTokens, reg, env);
      if value.Err? {
        return Err(value.error);
      }
      line := line + [Quote(value.value)];
      tagTokens.items := [];
      var rest := LStripChars(token, rd);
      if rest != "" {
        line := line + [rest + " "];
      } else {
        assert line == line + [];
      }
      return Ok(false);
    }

    /** `deploy()`: the file tree afterwards is the one `Deployed`
        describes, and so is the outcome. */
    method Deploy(reg: Tag.TagRegistry, env: Tag.Env, fs: FileSystem) returns (r: Result<()>)
      modifies this, tagTokens, fs
      ensures fs.files == Deployed(reg.registry, env, ld, rd, source, to, old(fs.files)).files
      ensures r == Deployed(reg.registry, env, ld, rd, source, to, old(fs.files)).outcome
    {
      fs.MoveToPrev(to);
      if source !in fs.files {
        return Err(FileNotFoundError(source));
      }
      var lines := Lines(fs.files[source]);
      InjectAllRenders(reg.registry, env, ld, rd, lines);
      var w := WriteOutput(reg, env, lines, fs, InjectAll(reg.registry, env, ld, rd, lines));
      r := if w.Some? then Err(w.value) else Ok(());
    }

    /** The body of `deploy` once the source is open: the target is
        created and holds the output, and the error that ended it, if any,
        is the output's. */
    method WriteOutput(reg: Tag.TagRegistry, env: Tag.Env, lines: seq<string>, fs: FileSystem,
                       ghost results: seq<Result<string>>)
      returns (r: Option<Error>)
      requires RendersTo(reg.registry, env, ld, rd, lines, results)
      modifies this, tagTokens, fs
      ensures fs.files == old(fs.files)[to := OutputOf(lines, results).text]
      ensures r == OutputOf(lines, results).error
    {
      fs.Create(to);
      ghost var k := StopAt(lines);
      StopAtFacts(lines);
      ghost var rendered := Accumulate(results[..k]);
      assert "" + rendered.text == rendered.text;
      var stop := RenderUntilStop(reg, env, lines, fs, results, k);
      if stop.Err? {
        return Some(stop.error);
      }
      if stop.value < |lines| {
        CopyVerbatim(lines, stop.value + 1, fs);
      } else {
        assert lines[..stop.value] == lines;
      }
      r := None;
    }

    /** The first loop of `deploy`: render and write each line until the
        stop line, or until a line fails. */
    method RenderUntilStop(reg: Tag.TagRegistry, env: Tag.Env, lines: seq<string>, fs: FileSystem,
                           ghost results: seq<Result<string>>, ghost stop: nat)
      returns (r: Result<nat>)
      requires to in fs.files
      requires RendersTo(reg.registry, env, ld, rd, lines, results)
      requires stop <= |lines|
      requires stop < |lines| ==> IsStopLine(lines[stop])
      requires forall k :: 0 <= k < stop ==> !IsStopLine(lines[k])
      modifies this, tagTokens, fs
      ensures var w := Accumulate(results[..stop]);
        && fs.files == old(fs.files)[to := old(fs.files)[to] + w.text]
        && (r.Err? <==> w.error.Some?)
        && (r.Err? ==> r.error == w.error.value)
        && (r.Ok? ==> r.value == stop)
    {
      var i := 0;
      assert results[..0] == [];
      assert old(fs.files)[to] + "" == old(fs.files)[to];
      assert fs.files == old(fs.files)[to := old(fs.files)[to]];
      while i < |lines| && !IsStopLine(lines[i])
        invariant 0 <= i <= stop
        invariant Accumulate(results[..i]).error.None?
        invariant fs.files == old(fs.files)[to := old(fs.files)[to] + Accumulate(results[..i]).text]
      {
        ghost var before := Accumulate(results[..i]).text;
        AccumulateNext(results, i);
        var written := WriteLine(reg, env, lines, i, fs, results);
        if written.Err? {
          AccumulateStopsAtError(results, i, stop);
          return Err(written.error);
        }
        assert old(fs.files)[to] + before + written.value == old(fs.files)[to] + (before + written.value);
        i := i + 1;
      }
      r := Ok(i);
    }

    /** `to.write(self._line_inject(line))` */
    method WriteLine(reg: Tag.TagRegistry, env: Tag.Env, lines: seq<string>, i: nat, fs: FileSystem,
                     ghost results: seq<Result<string>>)
      returns (r: Result<string>)
      requires i < |lines| && to in fs.files
      requires RendersTo(reg.registry, env, ld, rd, lines, results)
      modifies this, tagTokens, fs
      ensures r == results[i]
      ensures r.Err? ==> fs.files == old(fs.files)
      ensures r.Ok? ==> fs.files == old(fs.files)[to := old(fs.files)[to] + r.value]
    {
      assert RenderedLine(reg.registry, env, ld, rd, lines, results, i);
      r := LineInject(reg, env, lines[i]);
      if r.Ok? {
        fs.Append(to, r.value);
      }
    }

    /** The second loop of `deploy`: the remaining lines are written as
        they are. */
    method CopyVerbatim(lines: seq<string>, from: nat, fs: FileSystem)
      requires from <= |lines| && to in fs.files
      modifies fs
      ensures fs.files == old(fs.files)[to := old(fs.files)[to] + Concat(lines[from..])]
    {
      var j := from;
      assert Concat(lines[from..j]) == "";
      assert old(fs.files)[to] + "" == old(fs.files)[to];
      assert fs.files == old(fs.files)[to := old(fs.files)[to]];
      while j < |lines|
        invariant from <= j <= |lines|
        invariant fs.files == old(fs.files)[to := old(fs.files)[to] + Concat(lines[from..j])]
      {
        ghost var written := Concat(lines[from..j]);
        ConcatAppend(lines[from..j], lines[j]);
        assert lines[from..j + 1] == lines[from..j] + [lines[j]];
        assert Concat(lines[from..j + 1]) == written + lines[j];
        fs.Append(to, lines[j]);
        assert fs.files == old(fs.files)[to := old(fs.files)[to] + written + lines[j]];
        assert old(fs.files)[to] + written + lines[j] == old(fs.files)[to] + (written + lines[j]);
        j := j + 1;
      }
      assert lines[from..j] == lines[from..];
    }
  }

  /** One more result: nothing after an error, else its text or its
      error. */
  lemma AccumulateNext(results: seq<Result<string>>, i: nat)
    requires i < |results|
    ensures var w := Accumulate(results[..i]);
      Accumulate(results[..i + 1])
        == if w.error.Some? then w
           else match results[i]
             case Err(e) => Written(w.text, Some(e))
             case Ok(s) => Written(w.text + s, None)
  {
    assert results[..i + 1][..i] == results[..i];
    assert results[..i + 1][i] == results[i];
  }

  /** Once a line has failed, later lines change nothing: rendering stops
      at the first error. */
  lemma {:induction false} AccumulateStopsAtError(results: seq<Result<string>>, i: nat, k: nat)
    requires i < k <= |results|
    requires Accumulate(results[..i + 1]).error.Some?
    ensures Accumulate(results[..k]) == Accumulate(results[..i + 1])
    decreases k
  {
    if k > i + 1 {
      AccumulateStopsAtError(results, i, k - 1);
      var pre := results[..k];
      assert pre[..|pre| - 1] == results[..k - 1];
    }
  }
}
