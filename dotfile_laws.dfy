/** What the template renderer and `deploy` promise, stated over the
    functions of the Dotfile module: runs of copied tokens, tag spans, open
    tags at the end of a line, lines without tags, the stop line and the
    `.prev` backup. */
module DotfileLaws {
  import opened Py
  import opened PyText
  import opened Shell
  import opened ConfigValue
  import Tag
  import opened Dotfile

  /** A token the copy state passes through: it does not end with the left
      delimiter, or it holds whitespace. */
  predicate Copied(token: string, ld: string) {
    !EndsWith(token, ld) || HasSpace(token)
  }

  /** A token the in-tag state keeps as a tag argument. */
  predicate Argument(token: string, rd: string) {
    !StartsWith(token, rd) || HasSpace(token)
  }

  /** The pieces a run of copied tokens adds to the line. */
  function Spaced(tokens: seq<string>): (r: seq<string>)
    ensures |r| == |tokens|
  {
    seq(|tokens|, i requires 0 <= i < |tokens| => WrapSpaced(tokens[i]) + " ")
  }

  /** The token loop over `a + b` is the loop over `a` followed by the loop
      over `b`, and an error in `a` ends it. */
  lemma {:induction false} InjectTokensConcat(registry: map<string, Tag.Handler>, env: Tag.Env,
                                              ld: string, rd: string, st: Injector,
                                              a: seq<string>, b: seq<string>)
    ensures InjectTokens(registry, env, ld, rd, st, a + b) ==
      match InjectTokens(registry, env, ld, rd, st, a)
      case Ok(mid) => InjectTokens(registry, env, ld, rd, mid, b)
      case Err(e) => Err(e)
    decreases |a|
  {
    if a == [] {
      assert a + b == b;
    } else {
      assert (a + b)[0] == a[0];
      assert (a + b)[1..] == a[1..] + b;
      match InjectStep(registry, env, ld, rd, st, a[0])
      case Ok(next) =>
        InjectTokensConcat(registry, env, ld, rd, next, a[1..], b);
      case Err(_) =>
    }
  }

  /** The token loop after a successful first step goes on from the state
      that step leaves. */
  lemma TokensAfterStep(registry: map<string, Tag.Handler>, env: Tag.Env, ld: string, rd: string,
                        st: Injector, next: Injector, tokens: seq<string>)
    requires tokens != [] && InjectStep(registry, env, ld, rd, st, tokens[0]) == Ok(next)
    ensures InjectTokens(registry, env, ld, rd, st, tokens) == InjectTokens(registry, env, ld, rd, next, tokens[1..])
  {
  }

  /** One copied token. */
  lemma CopyStep(registry: map<string, Tag.Handler>, env: Tag.Env, ld: string, rd: string,
                 st: Injector, token: string)
    requires !st.active && Copied(token, ld)
    ensures InjectStep(registry, env, ld, rd, st, token) == Ok(st.(line := st.line + [WrapSpaced(token) + " "]))
  {
  }

  /** One tag argument. */
  lemma ArgumentStep(registry: map<string, Tag.Handler>, env: Tag.Env, ld: string, rd: string,
                     st: Injector, token: string)
    requires st.active && Argument(token, rd)
    ensures InjectStep(registry, env, ld, rd, st, token) == Ok(st.(tagTokens := st.tagTokens + [token]))
  {
  }

  /** Outside a tag, tokens that do not open one are copied one by one,
      each followed by a space, and those holding whitespace are wrapped in
      double quotes. */
  lemma {:induction false} CopyRun(registry: map<string, Tag.Handler>, env: Tag.Env,
                                   ld: string, rd: string, st: Injector, tokens: seq<string>)
    requires !st.active
    requires forall i :: 0 <= i < |tokens| ==> Copied(tokens[i], ld)
    ensures InjectTokens(registry, env, ld, rd, st, tokens) == Ok(st.(line := st.line + Spaced(tokens)))
    decreases |tokens|
  {
    if tokens == [] {
      assert st.line + Spaced(tokens) == st.line;
    } else {
      var piece := WrapSpaced(tokens[0]) + " ";
      var next := st.(line := st.line + [piece]);
      CopyStep(registry, env, ld, rd, st, tokens[0]);
      TokensAfterStep(registry, env, ld, rd, st, next, tokens);
      CopiedTail(tokens, ld);
      CopyRun(registry, env, ld, rd, next, tokens[1..]);
      SpacedCons(st.line, tokens);
    }
  }

  lemma CopiedTail(tokens: seq<string>, ld: string)
    requires tokens != []
    requires forall i :: 0 <= i < |tokens| ==> Copied(tokens[i], ld)
    ensures forall i :: 0 <= i < |tokens[1..]| ==> Copied(tokens[1..][i], ld)
  {
    assert forall i :: 0 <= i < |tokens[1..]| ==> tokens[1..][i] == tokens[i + 1];
  }

  lemma SpacedCons(line: seq<string>, tokens: seq<string>)
    requires tokens != []
    ensures (line + [WrapSpaced(tokens[0]) + " "]) + Spaced(tokens[1..]) == line + Spaced(tokens)
  {
    assert Spaced(tokens) == [WrapSpaced(tokens[0]) + " "] + Spaced(tokens[1..]);
  }

  /** Inside a tag, tokens that do not close it are collected as its
      arguments and nothing is added to the line. */
  lemma {:induction false} ArgumentRun(registry: map<string, Tag.Handler>, env: Tag.Env,
                                       ld: string, rd: string, st: Injector, args: seq<string>)
    requires st.active
    requires forall i :: 0 <= i < |args| ==> Argument(args[i], rd)
    ensures InjectTokens(registry, env, ld, rd, st, args) == Ok(st.(tagTokens := st.tagTokens + args))
    decreases |args|
  {
    if args == [] {
      assert st.tagTokens + args == st.tagTokens;
    } else {
      var next := st.(tagTokens := st.tagTokens + [args[0]]);
      ArgumentStep(registry, env, ld, rd, st, args[0]);
      ArgumentRun(registry, env, ld, rd, next, args[1..]);
      assert next.tagTokens + args[1..] == st.tagTokens + args;
    }
  }

  /** What follows the right delimiter of a closing token, followed by a
      space, if anything follows it. */
  function Trailer(close: string, rd: string): seq<string> {
    var rest := LStripChars(close, rd);
    if rest != "" then [rest + " "] else []
  }

  /** A whole tag: the opening token is copied with every trailing
      character of the left delimiter removed, the arguments are evaluated
      as a tag, its value is shell-quoted into the line followed by what
      comes after the right delimiter, and the renderer is back in the copy
      state with no pending tag tokens. A failing tag fails the line. */
  lemma TagSpan(registry: map<string, Tag.Handler>, env: Tag.Env, ld: string, rd: string,
                st: Injector, open: string, args: seq<string>, close: string)
    requires !st.active && st.tagTokens == []
    requires !Copied(open, ld)
    requires forall i :: 0 <= i < |args| ==> Argument(args[i], rd)
    requires !Argument(close, rd)
    ensures InjectTokens(registry, env, ld, rd, st, [open] + args + [close]) ==
      match Tag.EvaluateStr(registry, args, env)
      case Ok(v) => Ok(Injector(st.line + [RStripChars(open, ld), Quote(v)] + Trailer(close, rd), [], false))
      case Err(e) => Err(e)
  {
    var begun := Injector(st.line + [RStripChars(open, ld)], [], true);
    assert InjectStep(registry, env, ld, rd, st, open) == Ok(begun);
    assert InjectTokens(registry, env, ld, rd, st, [open]) == Ok(begun);
    ArgumentRun(registry, env, ld, rd, begun, args);
    var collected := begun.(tagTokens := args);
    assert begun.tagTokens + args == args;
    InjectTokensConcat(registry, env, ld, rd, st, [open], args);
    InjectTokensConcat(registry, env, ld, rd, st, [open] + args, [close]);
    assert InjectTokens(registry, env, ld, rd, collected, [close])
        == InjectStep(registry, env, ld, rd, collected, close);
    match Tag.EvaluateStr(registry, args, env)
    case Ok(v) =>
      assert st.line + [RStripChars(open, ld)] + [Quote(v)] == st.line + [RStripChars(open, ld), Quote(v)];
    case Err(_) =>
  }

  /** A tag without arguments fails the line with the `IndexError` of
      popping the tag name from an empty list. */
  lemma EmptyTagFails(registry: map<string, Tag.Handler>, env: Tag.Env, ld: string, rd: string,
                      st: Injector, open: string, close: string, more: seq<string>)
    requires !st.active && st.tagTokens == []
    requires !Copied(open, ld) && !Argument(close, rd)
    ensures InjectTokens(registry, env, ld, rd, st, [open, close] + more) == Err(IndexError)
  {
    TagSpan(registry, env, ld, rd, st, open, [], close);
    assert [open] + [] + [close] == [open, close];
    InjectTokensConcat(registry, env, ld, rd, st, [open, close], more);
  }

  /** A line whose token loop ends in `st` renders to the pieces of `st`
      joined, with trailing whitespace replaced by one newline. */
  lemma InjectOfTokens(registry: map<string, Tag.Handler>, env: Tag.Env, ld: string, rd: string,
                       text: string, lws: string, body: string, tokens: seq<string>, st: Injector)
    requires MatchLine(text) == Some(LineParts(lws, body))
    requires Split(body) == Ok(tokens)
    requires InjectTokens(registry, env, ld, rd, Injector([lws], [], false), tokens) == Ok(st)
    ensures Inject(registry, env, ld, rd, text) == Ok(RStrip(Concat(st.line)) + "\n")
  {
    assert FinalState(registry, env, ld, rd, text) == Ok(st);
  }

  /** The token loop over copied words, an opening token and arguments
      ends inside the tag, holding the arguments. */
  lemma OpenAtEnd(registry: map<string, Tag.Handler>, env: Tag.Env, ld: string, rd: string,
                  st: Injector, words: seq<string>, open: string, args: seq<string>)
    requires !st.active && st.tagTokens == []
    requires forall i :: 0 <= i < |words| ==> Copied(words[i], ld)
    requires !Copied(open, ld)
    requires forall i :: 0 <= i < |args| ==> Argument(args[i], rd)
    ensures InjectTokens(registry, env, ld, rd, st, words + [open] + args)
         == Ok(Injector(st.line + Spaced(words) + [RStripChars(open, ld)], args, true))
  {
    CopyRun(registry, env, ld, rd, st, words);
    var copied := st.(line := st.line + Spaced(words));
    var begun := Injector(copied.line + [RStripChars(open, ld)], [], true);
    assert InjectStep(registry, env, ld, rd, copied, open) == Ok(begun);
    assert InjectTokens(registry, env, ld, rd, copied, [open]) == Ok(begun);
    ArgumentRun(registry, env, ld, rd, begun, args);
    assert begun.tagTokens + args == args;
    InjectTokensConcat(registry, env, ld, rd, st, words, [open]);
    InjectTokensConcat(registry, env, ld, rd, st, words + [open], args);
  }

  /** A tag still open at the end of the line: its tokens are collected
      and never written, so the line ends with the opening token stripped
      of its delimiter. */
  lemma UnclosedTagDropped(registry: map<string, Tag.Handler>, env: Tag.Env, ld: string, rd: string,
                           text: string, lws: string, body: string,
                           words: seq<string>, open: string, args: seq<string>)
    requires MatchLine(text) == Some(LineParts(lws, body))
    requires Split(body) == Ok(words + [open] + args)
    requires forall i :: 0 <= i < |words| ==> Copied(words[i], ld)
    requires !Copied(open, ld)
    requires forall i :: 0 <= i < |args| ==> Argument(args[i], rd)
    ensures Inject(registry, env, ld, rd, text)
         == Ok(RStrip(lws + Concat(Spaced(words)) + RStripChars(open, ld)) + "\n")
  {
    var st0 := Injector([lws], [], false);
    OpenAtEnd(registry, env, ld, rd, st0, words, open, args);
    var final := Injector([lws] + Spaced(words) + [RStripChars(open, ld)], args, true);
    InjectOfTokens(registry, env, ld, rd, text, lws, body, words + [open] + args, final);
    ConcatAppend([lws] + Spaced(words), RStripChars(open, ld));
    assert ([lws] + Spaced(words))[1..] == Spaced(words);
    assert Concat([lws] + Spaced(words)) == lws + Concat(Spaced(words));
  }

  /** A word that needs no quoting either way: no whitespace, quotes or
      backslashes, and it does not open a tag. */
  predicate Verbatim(w: string, ld: string) {
    PlainWord(w) && !HasSpace(w) && !EndsWith(w, ld)
  }

  lemma {:induction false} JoinVerbatim(words: seq<string>, ld: string)
    requires words != []
    requires forall i :: 0 <= i < |words| ==> Verbatim(words[i], ld)
    ensures Join(" ", words) != []
    ensures !IsSpace(Join(" ", words)[0])
    ensures !IsSpace(Join(" ", words)[|Join(" ", words)| - 1])
    ensures '\n' !in Join(" ", words)
    ensures Concat(Spaced(words)) == Join(" ", words) + " "
  {
    var w := words[0];
    assert !IsSpace(w[0]) && !IsSpace(w[|w| - 1]);
    if |words| == 1 {
      assert Spaced(words) == [w + " "];
      assert Concat(Spaced(words)) == w + " " + Concat([]);
    } else {
      JoinVerbatim(words[1..], ld);
      var j := Join(" ", words[1..]);
      assert Join(" ", words) == w + " " + j;
      assert Spaced(words) == [w + " "] + Spaced(words[1..]);
      assert Concat(Spaced(words)) == w + " " + Concat(Spaced(words[1..]));
      assert (w + " " + j)[|w + " " + j| - 1] == j[|j| - 1];
      assert '\n' !in w;
    }
  }

  /** A line of plain words splits into its leading whitespace and the
      words joined by single spaces. */
  lemma PlainLineMatches(lws: string, words: seq<string>, ld: string)
    requires AllSpace(lws) && words != []
    requires forall i :: 0 <= i < |words| ==> Verbatim(words[i], ld)
    ensures MatchLine(lws + Join(" ", words) + "\n") == Some(LineParts(lws, Join(" ", words)))
  {
    var body := Join(" ", words);
    var text := lws + body + "\n";
    JoinVerbatim(words, ld);
    assert text[..|text| - 1] == lws + body;
    LStripSpacePrefix(lws, body);
    assert (lws + body)[..|lws + body| - |body|] == lws;
  }

  /** A line without tags whose words are separated by single spaces and
      need no quoting renders to itself. */
  lemma PlainLineUnchanged(registry: map<string, Tag.Handler>, env: Tag.Env, ld: string, rd: string,
                           lws: string, words: seq<string>)
    requires AllSpace(lws) && words != []
    requires forall i :: 0 <= i < |words| ==> Verbatim(words[i], ld)
    ensures var text := lws + Join(" ", words) + "\n";
      Inject(registry, env, ld, rd, text) == Ok(text)
  {
    var body := Join(" ", words);
    var text := lws + body + "\n";
    var st := Injector([lws] + Spaced(words), [], false);
    assert InjectTokens(registry, env, ld, rd, Injector([lws], [], false), words) == Ok(st) by {
      forall i | 0 <= i < |words| ensures Copied(words[i], ld) {
      }
      CopyRun(registry, env, ld, rd, Injector([lws], [], false), words);
    }
    assert RStrip(Concat(st.line)) == lws + body by {
      JoinVerbatim(words, ld);
      assert st.line[1..] == Spaced(words);
      assert Concat(st.line) == lws + (body + " ");
      PlainLineText(lws, body);
    }
    PlainLineMatches(lws, words, ld);
    SplitJoinedPlainWords(words);
    InjectOfTokens(registry, env, ld, rd, text, lws, body, words, st);
  }

  /** Dropping the space after the last word gives the line without its
      newline back. */
  lemma PlainLineText(lws: string, body: string)
    requires body != [] && !IsSpace(body[|body| - 1])
    ensures RStrip(lws + (body + " ")) == lws + body
  {
    var x := lws + body;
    assert x[|x| - 1] == body[|body| - 1];
    assert lws + (body + " ") == x + " ";
    assert AllSpace(" ");
    RStripSpaceSuffix(x, " ");
  }

  /** Printable ASCII other than the space is not whitespace. */
  lemma PrintableNoSpace(s: string)
    requires forall i :: 0 <= i < |s| ==> '!' <= s[i] <= '~'
    ensures !HasSpace(s)
  {
  }

  /** The left delimiter alone opens a tag and leaves nothing before it. */
  lemma OpeningDelimiter()
    ensures !Copied("{%", "{%") && RStripChars("{%", "{%") == ""
  {
    PrintableNoSpace("{%");
    assert "{%"[..0] == "";
  }

  /** `%}/{%` closes a tag and leaves `/{%`. */
  lemma ClosingToken()
    ensures !Argument("%}/{%", "%}") && LStripChars("%}/{%", "%}") == "/{%"
  {
    assert !Argument("%}/{%", "%}") by {
      PrintableNoSpace("%}/{%");
      assert "%}/{%"[..2] == "%}";
    }
    assert LStripChars("%}/{%", "%}") == "/{%" by {
      LStripCharsAfter("%}", "/{%", "%}");
      assert "%}" + "/{%" == "%}/{%";
    }
  }

  /** Outside a tag the right delimiter is an ordinary word. */
  lemma StrayClosingDelimiter()
    ensures Copied("%}", "{%") && !HasSpace("%}")
  {
    PrintableNoSpace("%}");
    assert "%}"[0..][0] == '%';
  }

  /** The words of the example below, as the token loop classifies them. */
  lemma ExampleWords()
    ensures Argument("root", "%}")
    ensures Copied("config", "{%") && Copied("app.name", "{%")
    ensures !HasSpace("config") && !HasSpace("app.name")
  {
    PrintableNoSpace("config");
    PrintableNoSpace("app.name");
    assert "root"[..2][0] == 'r';
    assert "config"[4..][0] == 'i';
    assert "app.name"[6..][0] == 'm';
  }

  /** The words of the example below as the copy state writes them. */
  lemma ExampleSpaced()
    ensures Spaced(["config", "app.name", "%}"]) == ["config ", "app.name ", "%} "]
  {
    ExampleWords();
    StrayClosingDelimiter();
    var sp := Spaced(["config", "app.name", "%}"]);
    assert sp[0] == "config" + " " == "config ";
    assert sp[1] == "app.name" + " " == "app.name ";
    assert sp[2] == "%}" + " " == "%} ";
    assert sp == [sp[0], sp[1], sp[2]];
  }

  /** The rest of the example is copied word by word. */
  lemma WordsAfterRoot(registry: map<string, Tag.Handler>, env: Tag.Env, pre: seq<string>)
    ensures InjectTokens(registry, env, "{%", "%}", Injector(pre, [], false), ["config", "app.name", "%}"])
         == Ok(Injector(pre + ["config ", "app.name ", "%} "], [], false))
  {
    StrayClosingDelimiter();
    ExampleWords();
    CopyRun(registry, env, "{%", "%}", Injector(pre, [], false), ["config", "app.name", "%}"]);
    ExampleSpaced();
  }

  /** The first tag of the example: `root` evaluates to the root string
      and the remainder `/{%` of the closing token is copied as text. The
      tokens are the opening delimiter, the tag name and the closing token;
      the pieces are the empty leading whitespace, the empty text before
      the delimiter, the quoted value and the remainder. */
  lemma RootTagThenText(registry: map<string, Tag.Handler>, env: Tag.Env)
    requires "root" in registry && registry["root"] == Tag.RootFunc
    ensures InjectTokens(registry, env, "{%", "%}", Injector([""], [], false), ["{%"] + ["root"] + ["%}/{%"])
         == Ok(Injector([""] + ["", Quote(env.rootStr)] + ["/{% "], [], false))
  {
    RootTagSpan(registry, env);
    assert Trailer("%}/{%", "%}") == ["/{% "] by {
      ClosingToken();
      assert "/{%" + " " == "/{% ";
    }
  }

  /** The tag itself, before the pieces are spelled out. */
  lemma RootTagSpan(registry: map<string, Tag.Handler>, env: Tag.Env)
    requires "root" in registry && registry["root"] == Tag.RootFunc
    ensures InjectTokens(registry, env, "{%", "%}", Injector([""], [], false), ["{%"] + ["root"] + ["%}/{%"])
         == Ok(Injector([""] + ["", Quote(env.rootStr)] + Trailer("%}/{%", "%}"), [], false))
  {
    var st := Injector([""], [], false);
    assert Tag.EvaluateStr(registry, ["root"], env) == Ok(env.rootStr) by {
      assert ["root"][0] == "root" && ["root"][1..] == [];
    }
    OpeningDelimiter();
    ClosingToken();
    ExampleWords();
    TagSpan(registry, env, "{%", "%}", st, "{%", ["root"], "%}/{%");
  }

  /** `deploy` with the default delimiters on `{% root %}/{% config
      app.name %}`: the closing token `%}/{%` closes the `root` tag and its
      remainder `/{%` is copied as text, so the second tag is never opened
      and its tokens are copied as words. */
  lemma SecondTagNotReopened(registry: map<string, Tag.Handler>, env: Tag.Env)
    requires "root" in registry && registry["root"] == Tag.RootFunc
    ensures InjectTokens(registry, env, "{%", "%}", Injector([""], [], false),
                         ["{%"] + ["root"] + ["%}/{%"] + ["config", "app.name", "%}"])
         == Ok(Injector([""] + ["", Quote(env.rootStr)] + ["/{% "] + ["config ", "app.name ", "%} "], [], false))
  {
    var pre := [""] + ["", Quote(env.rootStr)] + ["/{% "];
    RootTagThenText(registry, env);
    WordsAfterRoot(registry, env, pre);
    InjectTokensConcat(registry, env, "{%", "%}", Injector([""], [], false),
                       ["{%"] + ["root"] + ["%}/{%"], ["config", "app.name", "%}"]);
  }

  /** The stop line: `#` and `stop`, with any whitespace around and
      between them. */
  lemma StopLineAccepted()
    ensures IsStopLine("# stop\n")
  {
  }

  /** The letters of `stop` match in any case. */
  lemma StopLineAnyCase()
    ensures IsStopLine(" #STOP\t\n")
  {
    assert StopFrom("\t\n", 5);
    assert StopFrom("P\t\n", 4);
    assert StopFrom("OP\t\n", 3);
    assert StopFrom("TOP\t\n", 2);
    assert StopFrom("STOP\t\n", 1);
    assert StopFrom("#STOP\t\n", 0);
  }

  /** A last line without a newline can be the stop line too. */
  lemma StopLineWithoutNewline()
    ensures IsStopLine("#Stop")
  {
  }

  /** Under `re.IGNORECASE` the long s matches the `s` of `stop`. */
  lemma StopLineLongS()
    ensures IsStopLine("#\U{017F}top\n")
  {
  }

  /** A line with more than `# stop` and whitespace is rendered like any
      other. */
  lemma StopLineRejected()
    ensures !IsStopLine("# stopped\n")
  {
  }

  /** So is a line without the `#`. */
  lemma StopLineNeedsHash()
    ensures !IsStopLine("stop\n")
  {
  }

  /** `stop` must be one word. */
  lemma StopLineOneWord()
    ensures !IsStopLine("# st op\n")
  {
  }

  /** The first stop line is the one after a run of lines none of which is
      a stop line. */
  lemma {:induction false} StopAtAfterRun(a: seq<string>, s: string, b: seq<string>)
    requires forall i :: 0 <= i < |a| ==> !IsStopLine(a[i])
    requires IsStopLine(s)
    ensures StopAt(a + [s] + b) == |a|
  {
    if a != [] {
      assert (a + [s] + b)[0] == a[0];
      assert (a + [s] + b)[1..] == a[1..] + [s] + b;
      StopAtAfterRun(a[1..], s, b);
    }
  }

  /** Without a stop line every line is rendered. */
  lemma {:induction false} NoStopLine(lines: seq<string>)
    requires forall i :: 0 <= i < |lines| ==> !IsStopLine(lines[i])
    ensures StopAt(lines) == |lines|
    decreases |lines|
  {
    if lines != [] {
      NoStopLine(lines[1..]);
    }
  }

  /** The stop line is not written and every line after it is written
      unchanged, stop lines included, once the lines before it rendered. */
  lemma AfterStopVerbatim(a: seq<string>, s: string, b: seq<string>, results: seq<Result<string>>)
    requires |results| == |a| + 1 + |b|
    requires forall i :: 0 <= i < |a| ==> !IsStopLine(a[i])
    requires IsStopLine(s)
    requires Accumulate(results[..|a|]).error.None?
    ensures OutputOf(a + [s] + b, results) == Written(Accumulate(results[..|a|]).text + Concat(b), None)
  {
    StopAtAfterRun(a, s, b);
    assert (a + [s] + b)[|a| + 1..] == b;
  }

  /** Without a stop line the output is every line rendered. */
  lemma AllRenderedWithoutStop(lines: seq<string>, results: seq<Result<string>>)
    requires |results| == |lines|
    requires forall i :: 0 <= i < |lines| ==> !IsStopLine(lines[i])
    ensures OutputOf(lines, results) == Accumulate(results)
  {
    NoStopLine(lines);
    assert results[..|lines|] == results;
  }

  /** An existing target is kept as `<to>.prev`, whatever the outcome. */
  lemma DeployKeepsBackup(registry: map<string, Tag.Handler>, env: Tag.Env, ld: string, rd: string,
                          source: string, to: string, files: map<string, string>)
    requires to in files
    ensures var d := Deployed(registry, env, ld, rd, source, to, files);
      PrevPath(to) in d.files && d.files[PrevPath(to)] == files[to]
  {
    assert |PrevPath(to)| > |to|;
  }

  /** Paths other than the target and its backup are left as they were. */
  lemma DeployLeavesOthers(registry: map<string, Tag.Handler>, env: Tag.Env, ld: string, rd: string,
                           source: string, to: string, files: map<string, string>, p: string)
    requires p != to && p != PrevPath(to)
    ensures var d := Deployed(registry, env, ld, rd, source, to, files);
      (p in d.files <==> p in files) && (p in files ==> d.files[p] == files[p])
  {
  }

  /** A source that is its own target has been moved away before it is
      begun. */
  lemma DeployOntoSourceFails(registry: map<string, Tag.Handler>, env: Tag.Env, ld: string, rd: string,
                              to: string, files: map<string, string>)
    ensures Deployed(registry, env, ld, rd, to, to, files).outcome == Err(FileNotFoundError(to))
  {
  }

  /** On success the target holds exactly the output for the source. */
  lemma DeployWritesOutput(registry: map<string, Tag.Handler>, env: Tag.Env, ld: string, rd: string,
                           source: string, to: string, files: map<string, string>)
    requires source != to && source != PrevPath(to) && source in files
    ensures var d := Deployed(registry, env, ld, rd, source, to, files);
      var w := Output(registry, env, ld, rd, files[source]);
      && to in d.files && d.files[to] == w.text
      && (d.outcome.Ok? <==> w.error.None?)
  {
  }
}
