/** The `collections.Counter` both statistics scripts count into, on the
    fixed set of keys they use. */
module Tally {

  /** The counter keys, each standing for the string key the scripts use
      (see `KeyName`). */
  datatype Key =
    | Paragraphs | NonBlankLines | Lines
    | Words | Cjk | Hiragana | Katakana | Punctuations | Whitespaces | Others
    | CharsNoSpaces | CharsWithSpaces

  function KeyName(k: Key): string {
    match k
    case Paragraphs => "paragraphs"
    case NonBlankLines => "non_blank_lines"
    case Lines => "lines"
    case Words => "words"
    case Cjk => "cjk"
    case Hiragana => "hiragana"
    case Katakana => "katakana"
    case Punctuations => "punctuations"
    case Whitespaces => "whitespaces"
    case Others => "others"
    case CharsNoSpaces => "chars_no_spaces"
    case CharsWithSpaces => "chars_with_spaces"
  }

  /** A counter over the fixed key set, one count per key; a key the
      scripts never touched counts 0, as a missing key of a `Counter` does.
      `counter['cjk'] += 1` is the update `c.(cjk := c.cjk + 1)`. */
  datatype Counter = Counter(
    paragraphs: int, nonBlankLines: int, lines: int,
    words: int, cjk: int, hiragana: int, katakana: int, punctuations: int, whitespaces: int, others: int,
    charsNoSpaces: int, charsWithSpaces: int)

  /** `Counter()` */
  function Empty(): Counter {
    Counter(0, 0, 0, 0, 0, 0, 0, 0, 0, 0, 0, 0)
  }

  /** `counter[k]` */
  function Get(c: Counter, k: Key): int {
    match k
    case Paragraphs => c.paragraphs
    case NonBlankLines => c.nonBlankLines
    case Lines => c.lines
    case Words => c.words
    case Cjk => c.cjk
    case Hiragana => c.hiragana
    case Katakana => c.katakana
    case Punctuations => c.punctuations
    case Whitespaces => c.whitespaces
    case Others => c.others
    case CharsNoSpaces => c.charsNoSpaces
    case CharsWithSpaces => c.charsWithSpaces
  }

  /** `a.update(b)`: counts are added key by key. */
  function Update(a: Counter, b: Counter): (r: Counter)
    ensures forall k :: Get(r, k) == Get(a, k) + Get(b, k)
  {
    Counter(
      a.paragraphs + b.paragraphs, a.nonBlankLines + b.nonBlankLines, a.lines + b.lines,
      a.words + b.words, a.cjk + b.cjk, a.hiragana + b.hiragana, a.katakana + b.katakana,
      a.punctuations + b.punctuations, a.whitespaces + b.whitespaces, a.others + b.others,
      a.charsNoSpaces + b.charsNoSpaces, a.charsWithSpaces + b.charsWithSpaces)
  }
}
