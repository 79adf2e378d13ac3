/**
 * The patterns of the message filter. Java's regex engine is not part of
 * this model; what is modelled is the meaning of the three shapes that the
 * welcome and system-info tables use, with Java's default rules for `.` (any
 * character but a line terminator) and `$` (the end of the input, or just
 * before one line terminator that ends it). Every other pattern is kept as
 * its source text and matched by an engine supplied from outside.
 */
module Patterns {
  import opened FormattingCodes

  /** The line terminators of `java.util.regex` without the UNIX_LINES flag. */
  predicate IsLineTerminator(c: char) {
    c == '\n' || c == '\r' || c == '\U{0085}' || c == '\U{2028}' || c == '\U{2029}'
  }

  predicate NoLineTerminator(s: string) {
    forall i :: 0 <= i < |s| ==> !IsLineTerminator(s[i])
  }

  /**
   * The most that `$` lets follow it: nothing, or one final line terminator
   * (`\r\n` counts as one).
   */
  predicate IsInputEnd(s: string) {
    s == [] || s == "\r\n" || (|s| == 1 && IsLineTerminator(s[0]))
  }

  /**
   * Whether `$` matches at position `i` of `s`: at the end of the input, or
   * just before one line terminator that ends it, but never between the `\r`
   * and the `\n` of a final `\r\n`.
   */
  predicate DollarAt(s: string, i: int) {
    0 <= i <= |s| &&
    (i == |s| ||
     (i == |s| - 2 && s[i] == '\r' && s[i + 1] == '\n') ||
     (i == |s| - 1 && IsLineTerminator(s[i]) && !(s[i] == '\n' && i > 0 && s[i - 1] == '\r')))
  }

  /**
   * Whether `.*$` matches from position `q` of `s`: a run of characters other
   * than line terminators, then a position where `$` matches. The run can
   * stop only at the end, or before a final terminator or a final `\r\n`.
   */
  predicate RestOfLineAt(s: string, q: int) {
    0 <= q <= |s| &&
    (NoLineTerminator(s[q..]) ||
     (q <= |s| - 1 && NoLineTerminator(s[q..|s| - 1]) && DollarAt(s, |s| - 1)) ||
     (q <= |s| - 2 && NoLineTerminator(s[q..|s| - 2]) && DollarAt(s, |s| - 2)))
  }

  datatype Pattern =
    /** `^text$`, where `text` is matched literally. */
    | WholeLine(text: string)
      /** `^ +text$`, where `text` is matched literally and does not start with a space. */
    | IndentedLine(text: string)
      /** `^(prefix)?§.tag.*$` when `anyCode` holds, `^(prefix)?tag.*$` otherwise. */
    | TaggedLine(prefix: string, anyCode: bool, tag: string)
      /** Any other regex, by its source text. */
    | Regex(source: string)

  /** Java's `Matcher.find` for a regex source against an input, which this model does not define. */
  type RegexEngine = (string, string) -> bool

  /** `s` consists of `text` followed by a position where `$` matches. */
  predicate WholeLineMatch(text: string, s: string) {
    text <= s && DollarAt(s, |text|)
  }

  /** `s` consists of one or more spaces, then `text`, then the end of input. */
  predicate IndentedMatch(text: string, s: string)
    decreases |s|
  {
    |s| > 0 && s[0] == ' ' && (WholeLineMatch(text, s[1..]) || IndentedMatch(text, s[1..]))
  }

  /** What follows the optional prefix of a tagged line, from position `p` of `s`. */
  predicate TaggedAt(anyCode: bool, tag: string, s: string, p: nat) {
    if anyCode then
      p + 2 <= |s| && s[p] == Marker && !IsLineTerminator(s[p + 1]) && tag <= s[p + 2..] &&
      RestOfLineAt(s, p + 2 + |tag|)
    else
      p <= |s| && tag <= s[p..] && RestOfLineAt(s, p + |tag|)
  }

  /** Whether `find()` of pattern `p` succeeds on `s`. */
  predicate Find(p: Pattern, engine: RegexEngine, s: string) {
    match p
    case WholeLine(text) => WholeLineMatch(text, s)
    case IndentedLine(text) => IndentedMatch(text, s)
    case TaggedLine(prefix, anyCode, tag) =>
      // the optional group is tried first and dropped if the rest then fails
      (prefix <= s && TaggedAt(anyCode, tag, s, |prefix|)) || TaggedAt(anyCode, tag, s, 0)
    case Regex(source) => engine(source, s)
  }

  /**
   * A whole-line pattern finds its own text, and also that text followed by
   * a newline unless the text ends in a carriage return.
   */
  lemma WholeLineFindsItsText(text: string, engine: RegexEngine)
    ensures Find(WholeLine(text), engine, text)
    ensures text == [] || text[|text| - 1] != '\r' ==> Find(WholeLine(text), engine, text + "\n")
  {
    var s := text + "\n";
    assert text <= s;
    assert s[|text|] == '\n';
    assert |text| > 0 ==> s[|text| - 1] == text[|text| - 1];
  }

  /** `$` does not match between `\r` and `\n`: `^a\r$` finds nothing in `a\r\n`. */
  lemma CarriageReturnSplitsNoLine(engine: RegexEngine)
    ensures !Find(WholeLine("a\r"), engine, "a\r\n")
  {
    var s := "a\r\n";
    assert s[2] == '\n' && s[1] == '\r';
  }

  /** A whole-line pattern finds nothing with text after it, other than a final terminator. */
  lemma WholeLineRejectsMore(text: string, more: string, engine: RegexEngine)
    requires !IsInputEnd(more)
    ensures !Find(WholeLine(text), engine, text + more)
  {
    var s := text + more;
    assert s[|text|..] == more;
  }

  /** A tagged line without a code slot finds its prefix and tag followed by one line of text. */
  lemma TaggedLineFindsUntaggedBody(prefix: string, tag: string, body: string, engine: RegexEngine)
    requires NoLineTerminator(body)
    ensures Find(TaggedLine(prefix, false, tag), engine, prefix + tag + body)
  {
    var s := prefix + tag + body;
    assert s[|prefix|..] == tag + body;
    assert s[|prefix| + |tag|..] == body;
  }
}
