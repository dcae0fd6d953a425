/** POSIX-mode `shlex.split` (whitespace splitting on, comments off) and
    `shlex.quote`, the two pieces of the standard library the template
    renderer tokenises and re-quotes with. */
module Shell {
  import opened Py
  import opened PyText

  /** `shlex.whitespace` */
  predicate IsShlexSpace(c: char) {
    c == ' ' || c == '\t' || c == '\r' || c == '\n'
  }

  predicate IsQuote(c: char) {
    c == '\'' || c == '"'
  }

  /** A character that ends a bare word or changes the lexer's state. */
  predicate IsSpecial(c: char) {
    IsShlexSpace(c) || IsQuote(c) || c == '\\'
  }

  /** The states of `shlex.read_token`: ' ' (between tokens), 'a' (in a
      word), a quote character, and the escape character remembering the
      state it returns to (a word, or a double-quoted string). */
  datatype LexState = Between | Word | Quoted(q: char) | Escaped(inDouble: bool)

  /** The tokens of `rest`, given the lexer state and the part of the
      current token already read. */
  function Lex(rest: string, st: LexState, tok: string): Result<seq<string>>
    decreases |rest|
  {
    if rest == [] then
      match st
      case Between => Ok([])
      case Word => Ok([tok])
      case Quoted(_) => Err(ValueError("No closing quotation"))
      case Escaped(_) => Err(ValueError("No escaped character"))
    else
      var c, tail := rest[0], rest[1..];
      match st
      case Between =>
        if IsShlexSpace(c) then Lex(tail, Between, "")
        else if c == '\\' then Lex(tail, Escaped(false), "")
        else if IsQuote(c) then Lex(tail, Quoted(c), "")
        else Lex(tail, Word, [c])
      case Word =>
        if IsShlexSpace(c) then
          var ts :- Lex(tail, Between, "");
          Ok([tok] + ts)
        else if IsQuote(c) then Lex(tail, Quoted(c), tok)
        else if c == '\\' then Lex(tail, Escaped(false), tok)
        else Lex(tail, Word, tok + [c])
      case Quoted(q) =>
        if c == q then Lex(tail, Word, tok)
        else if c == '\\' && q == '"' then Lex(tail, Escaped(true), tok)
        else Lex(tail, Quoted(q), tok + [c])
      case Escaped(inDouble) =>
        // inside double quotes only the quote and the backslash are escaped
        var kept := if inDouble && c != '"' && c != '\\' then ['\\', c] else [c];
        Lex(tail, if inDouble then Quoted('"') else Word, tok + kept)
  }

  /** `shlex.split(s)` */
  function Split(s: string): (r: Result<seq<string>>)
    ensures r.Err? ==> LexError(r.error)
    ensures PlainWord(s) ==> r == Ok([s])
  {
    LexFails(s, Between, "");
    if PlainWord(s) then
      LexBareWord(s[1..], "", [s[0]]);
      assert s[1..] + "" == s[1..] && [s[0]] + s[1..] == s;
      Lex(s, Between, "")
    else Lex(s, Between, "")
  }

  /** The two errors `shlex` raises at the end of the input. */
  predicate LexError(e: Error) {
    e == ValueError("No closing quotation") || e == ValueError("No escaped character")
  }

  /** The lexer fails only at the end of the input, inside a quotation or
      after an escape character. */
  lemma {:induction false} LexFails(rest: string, st: LexState, tok: string)
    ensures Lex(rest, st, tok).Err? ==> LexError(Lex(rest, st, tok).error)
    decreases |rest|
  {
    if rest != [] {
      var c, tail := rest[0], rest[1..];
      match st
      case Between =>
        LexFails(tail, Between, "");
        LexFails(tail, Escaped(false), "");
        LexFails(tail, Quoted(c), "");
        LexFails(tail, Word, [c]);
      case Word =>
        LexFails(tail, Between, "");
        LexFails(tail, Quoted(c), tok);
        LexFails(tail, Escaped(false), tok);
        LexFails(tail, Word, tok + [c]);
      case Quoted(q) =>
        LexFails(tail, Word, tok);
        LexFails(tail, Escaped(true), tok);
        LexFails(tail, Quoted(q), tok + [c]);
      case Escaped(inDouble) =>
        var kept := if inDouble && c != '"' && c != '\\' then ['\\', c] else [c];
        LexFails(tail, if inDouble then Quoted('"') else Word, tok + kept);
    }
  }

  /** The characters `shlex.quote` leaves unquoted: `[\w@%+=:,./-]` in
      ASCII mode. */
  predicate IsSafe(c: char) {
    || ('a' <= c <= 'z') || ('A' <= c <= 'Z') || ('0' <= c <= '9')
    || c == '_' || c == '@' || c == '%' || c == '+' || c == '='
    || c == ':' || c == ',' || c == '.' || c == '/' || c == '-'
  }

  predicate AllSafe(s: string) {
    forall i :: 0 <= i < |s| ==> IsSafe(s[i])
  }

  /** `s.replace("'", "'\"'\"'")` */
  function EscapeSingle(s: string): string {
    if s == [] then ""
    else (if s[0] == '\'' then "'\"'\"'" else [s[0]]) + EscapeSingle(s[1..])
  }

  /** `shlex.quote(s)` */
  function Quote(s: string): (r: string)
    ensures s != [] && AllSafe(s) ==> r == s
  {
    if s == [] then "''"
    else if AllSafe(s) then s
    else "'" + EscapeSingle(s) + "'"
  }

  /** A bare word: characters the lexer appends as they are. */
  lemma {:induction false} LexBareWord(w: string, rest: string, tok: string)
    requires forall i :: 0 <= i < |w| ==> !IsSpecial(w[i])
    ensures Lex(w + rest, Word, tok) == Lex(rest, Word, tok + w)
  {
    if w != [] {
      assert (w + rest)[0] == w[0] && (w + rest)[1..] == w[1..] + rest;
      LexBareWord(w[1..], rest, tok + [w[0]]);
      assert tok + [w[0]] + w[1..] == tok + w;
      assert !IsSpecial(w[0]);
    } else {
      assert w + rest == rest && tok + w == tok;
    }
  }

  /** `'"'"'` inside single quotes closes them, reads a double-quoted `'`
      and opens them again. */
  lemma LexEscapedQuote(t: string, tok: string)
    ensures Lex("'\"'\"'" + t, Quoted('\''), tok) == Lex(t, Quoted('\''), tok + "'")
  {
    var x := "'\"'\"'" + t;
    assert x[1..] == "\"'\"'" + t;
    assert x[1..][1..] == "'\"'" + t;
    assert x[1..][1..][1..] == "\"'" + t;
    assert x[1..][1..][1..][1..] == "'" + t;
    assert x[1..][1..][1..][1..][1..] == t;
    calc {
      Lex(x, Quoted('\''), tok);
      Lex(x[1..], Word, tok);
      Lex(x[1..][1..], Quoted('"'), tok);
      Lex(x[1..][1..][1..], Quoted('"'), tok + "'");
      Lex(x[1..][1..][1..][1..], Word, tok + "'");
      Lex(t, Quoted('\''), tok + "'");
    }
  }

  /** Inside single quotes every character but the quote is literal. */
  lemma {:induction false} LexSingleQuoted(s: string, rest: string, tok: string)
    ensures Lex(EscapeSingle(s) + rest, Quoted('\''), tok) == Lex(rest, Quoted('\''), tok + s)
  {
    if s == [] {
      assert EscapeSingle(s) + rest == rest && tok + s == tok;
    } else {
      var e := EscapeSingle(s[1..]);
      LexSingleQuoted(s[1..], rest, tok + [s[0]]);
      assert tok + [s[0]] + s[1..] == tok + s;
      if s[0] == '\'' {
        assert EscapeSingle(s) + rest == "'\"'\"'" + (e + rest);
        LexEscapedQuote(e + rest, tok);
        assert tok + "'" == tok + [s[0]];
      } else {
        var x := [s[0]] + (e + rest);
        assert EscapeSingle(s) + rest == x;
        assert x[1..] == e + rest;
        assert Lex(x, Quoted('\''), tok) == Lex(e + rest, Quoted('\''), tok + [s[0]]);
      }
    }
  }

  /** `shlex.split(shlex.quote(s)) == [s]`: a quoted string is read back as
      exactly one token equal to it. */
  lemma QuoteRoundTrip(s: string)
    ensures Split(Quote(s)) == Ok([s])
  {
    if s == [] {
      QuoteEmptyRoundTrip();
    } else if AllSafe(s) {
      QuoteSafeRoundTrip(s);
    } else {
      QuoteEscapedRoundTrip(s);
    }
  }

  /** The empty string is quoted as `''`, one empty token. */
  lemma QuoteEmptyRoundTrip()
    ensures Split(Quote("")) == Ok([""])
  {
    var q := Quote("");
    assert q[1..] == "'" && q[1..][1..] == "";
    assert Lex(q, Between, "") == Lex(q[1..], Quoted('\''), "");
    assert Lex(q[1..], Quoted('\''), "") == Lex("", Word, "");
  }

  /** A string of safe characters is left as it is and read as one word. */
  lemma QuoteSafeRoundTrip(s: string)
    requires s != [] && AllSafe(s)
    ensures Split(Quote(s)) == Ok([s])
  {
    assert forall i :: 0 <= i < |s| ==> !IsSpecial(s[i]) by {
      forall i | 0 <= i < |s| ensures !IsSpecial(s[i]) {
        assert IsSafe(s[i]);
      }
    }
    assert s == [s[0]] + s[1..];
    LexBareWord(s[1..], "", [s[0]]);
    assert s[1..] + "" == s[1..];
  }

  /** Any other string is single-quoted, its quotes escaped, and read back
      as one token. */
  lemma QuoteEscapedRoundTrip(s: string)
    requires s != [] && !AllSafe(s)
    ensures Split(Quote(s)) == Ok([s])
  {
    var e := EscapeSingle(s);
    assert Quote(s) == "'" + (e + "'");
    LexOpenQuote(e + "'");
    LexSingleQuoted(s, "'", "");
    assert "" + s == s;
    LexCloseQuote(s);
  }

  /** An opening single quote starts a quoted token. */
  lemma LexOpenQuote(body: string)
    ensures Lex("'" + body, Between, "") == Lex(body, Quoted('\''), "")
  {
    assert ("'" + body)[0] == '\'' && ("'" + body)[1..] == body;
  }

  /** A closing single quote at the end completes the token. */
  lemma LexCloseQuote(tok: string)
    ensures Lex("'", Quoted('\''), tok) == Ok([tok])
  {
    assert "'"[1..] == "";
  }

  /** A plain word: non-empty and free of whitespace, quotes and
      backslashes. */
  predicate PlainWord(w: string) {
    w != [] && forall i :: 0 <= i < |w| ==> !IsSpecial(w[i])
  }

  /** A plain word at the start of the input is read as one word. */
  lemma LexPlainWord(w: string, tail: string)
    requires PlainWord(w)
    ensures Lex(w + tail, Between, "") == Lex(tail, Word, w)
  {
    assert (w + tail)[0] == w[0] && (w + tail)[1..] == w[1..] + tail;
    LexBareWord(w[1..], tail, [w[0]]);
    assert [w[0]] + w[1..] == w;
  }

  /** A space ends the word being read. */
  lemma LexSpaceEndsWord(w: string, s: string)
    ensures Lex(" " + s, Word, w) ==
      match Lex(s, Between, "")
      case Ok(ts) => Ok([w] + ts)
      case Err(e) => Err(e)
  {
    assert (" " + s)[0] == ' ' && (" " + s)[1..] == s;
  }

  /** Splitting plain words joined by single spaces gives the words back. */
  lemma {:induction false} SplitJoinedPlainWords(words: seq<string>)
    requires forall i :: 0 <= i < |words| ==> PlainWord(words[i])
    ensures Split(Join(" ", words)) == Ok(words)
  {
    if words != [] {
      var w := words[0];
      if |words| == 1 {
        LexPlainWord(w, "");
        assert w + "" == w && Join(" ", words) == w;
        assert Lex("", Word, w) == Ok([w]);
        assert words == [w];
      } else {
        var rest := Join(" ", words[1..]);
        assert Join(" ", words) == w + (" " + rest);
        LexPlainWord(w, " " + rest);
        LexSpaceEndsWord(w, rest);
        SplitJoinedPlainWords(words[1..]);
        assert words == [w] + words[1..];
      }
    }
  }
}
