/**
 * Protection of Minecraft formatting codes around a translation.
 *
 * A formatting code is the marker `§` followed by one code character from
 * `[0-9a-fklmnor]`. `Wrap` turns each code `§X` into the token `{§X}`;
 * `Unwrap` turns every token `{§X}` back into `§X`, tolerating one optional
 * space in each of three places (`{ ?§ ?X ?}`), since a translator may insert
 * spaces. Both are left-to-right scans that replace non-overlapping matches,
 * which is how a single `String.replaceAll` behaves.
 */
module FormattingCodes {
  import opened Wrappers

  const Marker: char := '§'

  /** The code characters: the character class `[0-9a-fklmnor]`. */
  predicate IsCodeChar(c: char) {
    '0' <= c <= '9' || 'a' <= c <= 'f' ||
    c == 'k' || c == 'l' || c == 'm' || c == 'n' || c == 'o' || c == 'r'
  }

  /** A formatting code starts at position `i` of `s`. */
  predicate IsCodeAt(s: string, i: int) {
    0 <= i && i + 1 < |s| && s[i] == Marker && IsCodeChar(s[i + 1])
  }

  predicate NoMarker(s: string) {
    forall i :: 0 <= i < |s| ==> s[i] != Marker
  }

  predicate NoOpenBrace(s: string) {
    forall i :: 0 <= i < |s| ==> s[i] != '{'
  }

  // ---------------------------------------------------------------------------
  // Wrapping

  /** The scan of `replaceAll("(§[0-9a-fklmnor])", "{$1}")`. */
  function Wrap(s: string): (r: string)
    ensures |s| <= |r| <= 2 * |s|
    decreases |s|
  {
    if |s| >= 2 && s[0] == Marker && IsCodeChar(s[1]) then
      ['{', Marker, s[1], '}'] + Wrap(s[2..])
    else if s == [] then
      []
    else
      [s[0]] + Wrap(s[1..])
  }

  /** The number of positions at which a formatting code starts. */
  function CodeCount(s: string): (n: nat)
    ensures n <= |s|
    decreases |s|
  {
    if s == [] then 0 else (if IsCodeAt(s, 0) then 1 else 0) + CodeCount(s[1..])
  }

  /** Wrapping adds exactly the two brackets around every code, nothing else. */
  lemma {:induction false} WrapLength(s: string)
    ensures |Wrap(s)| == |s| + 2 * CodeCount(s)
    decreases |s|
  {
    if |s| >= 2 && s[0] == Marker && IsCodeChar(s[1]) {
      // a code character is never a marker, so no code starts at position 1
      assert !IsCodeAt(s, 1);
      assert CodeCount(s[1..]) == CodeCount(s[2..]) by {
        assert s[1..][1..] == s[2..];
      }
      WrapLength(s[2..]);
    } else if s != [] {
      WrapLength(s[1..]);
    }
  }

  /** A text without any marker is returned unchanged. */
  lemma {:induction false} WrapWithoutMarker(s: string)
    requires NoMarker(s)
    ensures Wrap(s) == s
    decreases |s|
  {
    if s != [] {
      assert s[0] != Marker;
      WrapWithoutMarker(s[1..]);
    }
  }

  /** The code characters of `s` in order of appearance. */
  function Codes(s: string): (cs: string)
    ensures forall k :: 0 <= k < |cs| ==> IsCodeChar(cs[k])
    decreases |s|
  {
    if s == [] then []
    else if IsCodeAt(s, 0) then [s[1]] + Codes(s[1..])
    else Codes(s[1..])
  }

  /** A character other than the marker contributes no code. */
  lemma CodesSkip(x: char, s: string)
    requires x != Marker
    ensures Codes([x] + s) == Codes(s)
  {
    assert ([x] + s)[1..] == s;
  }

  /** A marker followed by a code character contributes that character. */
  lemma CodesCode(c: char, s: string)
    requires IsCodeChar(c)
    ensures Codes([Marker, c] + s) == [c] + Codes([c] + s)
  {
    assert ([Marker, c] + s)[1..] == [c] + s;
  }

  /** Wrapping never drops, duplicates or reorders a formatting code. */
  lemma {:induction false} WrapKeepsCodes(s: string)
    ensures Codes(Wrap(s)) == Codes(s)
    decreases |s|
  {
    if |s| >= 2 && s[0] == Marker && IsCodeChar(s[1]) {
      var c, rest := s[1], Wrap(s[2..]);
      assert Wrap(s) == ['{'] + ([Marker, c] + (['}'] + rest)) by {
        assert ['{', Marker, c, '}'] == ['{'] + [Marker, c] + ['}'];
      }
      CodesSkip('{', [Marker, c] + (['}'] + rest));
      CodesCode(c, ['}'] + rest);
      CodesSkip(c, ['}'] + rest);
      CodesSkip('}', rest);
      assert s == [Marker, c] + s[2..];
      CodesCode(c, s[2..]);
      CodesSkip(c, s[2..]);
      WrapKeepsCodes(s[2..]);
    } else if s != [] {
      var w := [s[0]] + Wrap(s[1..]);
      assert w[1..] == Wrap(s[1..]);
      WrapKeepsCodes(s[1..]);
      if |s| >= 2 {
        // s[1] is no code character, and Wrap(s[1..]) starts with s[1] or '{'
        WrapHead(s[1..]);
      }
      assert !IsCodeAt(w, 0);
    }
  }

  /** The first character of a non-empty wrapped text is `{` or the original one. */
  lemma WrapHead(s: string)
    requires s != []
    ensures Wrap(s) != [] && (Wrap(s)[0] == s[0] || Wrap(s)[0] == '{')
  {
  }

  // ---------------------------------------------------------------------------
  // Unwrapping

  /** The three optional spaces of a token `{ ?§ ?X ?}` and its code character. */
  datatype Token = Token(spaceBefore: bool, spaceInside: bool, code: char, spaceAfter: bool)

  function Space(present: bool): string {
    if present then " " else ""
  }

  function TokenText(t: Token): (r: string)
    ensures 4 <= |r| <= 7
  {
    "{" + Space(t.spaceBefore) + [Marker] + Space(t.spaceInside) + [t.code] + Space(t.spaceAfter) + "}"
  }

  predicate ValidToken(t: Token) {
    IsCodeChar(t.code)
  }

  /** Where each piece of a token sits, given which spaces are present. */
  lemma TokenChars(t: Token)
    ensures var r, i := TokenText(t), if t.spaceBefore then 2 else 1;
            var j := if t.spaceInside then i + 2 else i + 1;
            |r| == (if t.spaceAfter then j + 3 else j + 2) &&
            r[0] == '{' &&
            r[1] == (if t.spaceBefore then ' ' else Marker) &&
            r[i] == Marker &&
            r[i + 1] == (if t.spaceInside then ' ' else t.code) &&
            r[j] == t.code &&
            r[j + 1] == (if t.spaceAfter then ' ' else '}') &&
            r[|r| - 1] == '}'
  {
  }

  /**
   * Matches `\{ ?§ ?([0-9a-fklmnor]) ?\}` at the start of `s`. Taking each
   * optional space when it is there is the only way a match can continue,
   * because the character that follows each slot is never a space; so this
   * greedy reading is the regex's answer (`MatchTokenComplete`). It looks for
   * the marker at `i`, the code character at `j` and the closing brace at `k`.
   */
  function MatchToken(s: string): (r: Option<Token>)
    ensures r.Some? ==> ValidToken(r.value) && TokenText(r.value) <= s
  {
    if |s| == 0 || s[0] != '{' then None
    else
      var b1 := 1 < |s| && s[1] == ' ';
      var i := if b1 then 2 else 1;
      var b2 := i + 1 < |s| && s[i + 1] == ' ';
      var j := if b2 then i + 2 else i + 1;
      var b3 := j + 1 < |s| && s[j + 1] == ' ';
      var k := if b3 then j + 2 else j + 1;
      if k < |s| && s[i] == Marker && IsCodeChar(s[j]) && s[k] == '}' then
        var t := Token(b1, b2, s[j], b3);
        TokenChars(t);
        assert forall n :: 0 <= n < |TokenText(t)| ==> TokenText(t)[n] == s[n];
        Some(t)
      else
        None
  }

  /** Every token that `s` starts with is found, so a failed match means there is none. */
  lemma MatchTokenComplete(t: Token, s: string)
    requires ValidToken(t) && TokenText(t) <= s
    ensures MatchToken(s) == Some(t)
  {
    TokenChars(t);
    var r := TokenText(t);
    assert s[1] == r[1];
    var i := if t.spaceBefore then 2 else 1;
    assert s[i + 1] == r[i + 1];
    assert t.code != ' ';
    var j := if t.spaceInside then i + 2 else i + 1;
    assert s[j] == r[j];
    assert s[j + 1] == r[j + 1];
  }

  /** The scan of `replaceAll("\\{ ?§ ?([0-9a-fklmnor]) ?\\}", "§$1")`. */
  function Unwrap(s: string): (r: string)
    ensures |r| <= |s|
    decreases |s|
  {
    if s == [] then []
    else
      match MatchToken(s)
      case Some(t) => [Marker, t.code] + Unwrap(s[|TokenText(t)|..])
      case None => [s[0]] + Unwrap(s[1..])
  }

  /** A token, however its three optional spaces are filled, becomes its code. */
  lemma UnwrapToken(t: Token, rest: string)
    requires ValidToken(t)
    ensures Unwrap(TokenText(t) + rest) == [Marker, t.code] + Unwrap(rest)
  {
    var s := TokenText(t) + rest;
    MatchTokenComplete(t, s);
    assert s[|TokenText(t)|..] == rest;
  }

  /**
   * Where no token starts, the character is copied and the scan moves on; so
   * a `{` that begins no token survives as literal text.
   */
  lemma UnwrapLiteral(s: string)
    requires s != [] && MatchToken(s).None?
    ensures Unwrap(s) == [s[0]] + Unwrap(s[1..])
  {
  }

  /** A brace-free prefix is copied verbatim before the scan reaches the rest. */
  lemma {:induction false} UnwrapWithoutBraceThen(a: string, b: string)
    requires NoOpenBrace(a)
    ensures Unwrap(a + b) == a + Unwrap(b)
    decreases |a|
  {
    if a != [] {
      var ab := a + b;
      assert ab[0] == a[0] != '{';
      assert Unwrap(ab) == [a[0]] + Unwrap(ab[1..]);
      assert ab[1..] == a[1..] + b;
      assert NoOpenBrace(a[1..]) by {
        forall i | 0 <= i < |a[1..]| ensures a[1..][i] != '{' {
          assert a[1..][i] == a[i + 1];
        }
      }
      UnwrapWithoutBraceThen(a[1..], b);
      assert [a[0]] + a[1..] == a;
    } else {
      assert a + b == b;
    }
  }

  /** A text without `{` contains no token, so unwrapping leaves it unchanged. */
  lemma UnwrapWithoutBrace(s: string)
    requires NoOpenBrace(s)
    ensures Unwrap(s) == s
  {
    UnwrapWithoutBraceThen(s, "");
    assert s + "" == s;
  }

  /** A marker-free prefix is copied verbatim before the scan reaches the rest. */
  lemma {:induction false} WrapWithoutMarkerThen(a: string, b: string)
    requires NoMarker(a)
    ensures Wrap(a + b) == a + Wrap(b)
    decreases |a|
  {
    if a != [] {
      var ab := a + b;
      assert ab[0] == a[0] != Marker;
      assert Wrap(ab) == [a[0]] + Wrap(ab[1..]);
      assert ab[1..] == a[1..] + b;
      assert NoMarker(a[1..]) by {
        forall i | 0 <= i < |a[1..]| ensures a[1..][i] != Marker {
          assert a[1..][i] == a[i + 1];
        }
      }
      WrapWithoutMarkerThen(a[1..], b);
      assert [a[0]] + a[1..] == a;
    } else {
      assert a + b == b;
    }
  }

  /**
   * The round trip: a text that contains no `{` comes back unchanged when it
   * is wrapped and then unwrapped.
   */
  lemma {:induction false} UnwrapWrap(s: string)
    requires NoOpenBrace(s)
    ensures Unwrap(Wrap(s)) == s
    decreases |s|
  {
    if |s| >= 2 && s[0] == Marker && IsCodeChar(s[1]) {
      var t := Token(false, false, s[1], false);
      assert TokenText(t) == ['{', Marker, s[1], '}'];
      assert Wrap(s) == TokenText(t) + Wrap(s[2..]);
      UnwrapToken(t, Wrap(s[2..]));
      UnwrapWrap(s[2..]);
      assert [Marker, s[1]] + s[2..] == s;
    } else if s != [] {
      assert s[0] != '{';
      UnwrapLiteral([s[0]] + Wrap(s[1..]));
      assert ([s[0]] + Wrap(s[1..]))[1..] == Wrap(s[1..]);
      UnwrapWrap(s[1..]);
      assert [s[0]] + s[1..] == s;
    }
  }

  /**
   * Without the hypothesis the round trip fails: `{§ a}` holds no code (a
   * space follows the marker), so wrapping leaves it alone ...
   */
  lemma WrapLeavesSpacedMarker()
    ensures Wrap("{§ a}") == "{§ a}"
  {
  }

  /** ... but unwrapping reads it as a damaged token and yields `§a`. */
  lemma UnwrapReadsSpacedMarker()
    ensures Unwrap("{§ a}") == "§a"
  {
    var t := Token(false, true, 'a', false);
    assert TokenText(t) == "{§ a}";
    UnwrapToken(t, "");
    assert TokenText(t) + "" == TokenText(t);
  }

  /** A code is replaced by its token and the scan resumes after it. */
  lemma WrapCode(c: char, rest: string)
    requires IsCodeChar(c)
    ensures Wrap([Marker, c] + rest) == TokenText(Token(false, false, c, false)) + Wrap(rest)
  {
    var s := [Marker, c] + rest;
    assert s[..2] == [Marker, c];
    assert s[2..] == rest;
  }

  /**
   * A code between two texts without markers becomes its token and nothing
   * else changes.
   */
  lemma WrapBetween(a: string, c: char, b: string)
    requires NoMarker(a) && NoMarker(b) && IsCodeChar(c)
    ensures Wrap(a + [Marker, c] + b) == a + TokenText(Token(false, false, c, false)) + b
  {
    var x := [Marker, c] + b;
    WrapCode(c, b);
    WrapWithoutMarker(b);
    WrapWithoutMarkerThen(a, x);
    assert a + [Marker, c] + b == a + x;
    var t := TokenText(Token(false, false, c, false));
    assert a + (t + b) == a + t + b;
  }

  /** Wrapping `Hello §aworld` puts the code inside a bracketed token. */
  lemma WrapGreeting()
    ensures Wrap("Hello " + "§a" + "world") == "Hello " + "{§a}" + "world"
  {
    WrapBetween("Hello ", 'a', "world");
    assert TokenText(Token(false, false, 'a', false)) == "{§a}";
  }

  /**
   * A token, with its optional spaces filled in any way, between two texts
   * without `{` becomes its code and nothing else changes.
   */
  lemma UnwrapBetween(a: string, t: Token, b: string)
    requires NoOpenBrace(a) && NoOpenBrace(b) && ValidToken(t)
    ensures Unwrap(a + TokenText(t) + b) == a + [Marker, t.code] + b
  {
    var x := TokenText(t) + b;
    UnwrapTokenBeforeText(t, b);
    UnwrapWithoutBraceThen(a, x);
    assert a + TokenText(t) + b == a + x;
    assert a + ([Marker, t.code] + b) == a + [Marker, t.code] + b;
  }

  /** A token followed by a text without `{` becomes its code, and the text is kept. */
  lemma UnwrapTokenBeforeText(t: Token, b: string)
    requires NoOpenBrace(b) && ValidToken(t)
    ensures Unwrap(TokenText(t) + b) == [Marker, t.code] + b
  {
    UnwrapToken(t, b);
    UnwrapWithoutBrace(b);
  }

  /** The greeting's token is restored even with spaces inserted around the marker. */
  lemma UnwrapDamagedGreeting()
    ensures Unwrap("Hello " + "{ §a }" + "world") == "Hello " + "§a" + "world"
  {
    var t := Token(true, false, 'a', true);
    assert TokenText(t) == "{ §a }";
    UnwrapBetween("Hello ", t, "world");
  }

  /** One space in every slot is still tolerated. */
  lemma UnwrapAllSlotsSpaced()
    ensures Unwrap("{ § a }") == "§a"
  {
    var t := Token(true, true, 'a', true);
    assert TokenText(t) == "{ § a }";
    UnwrapToken(t, "");
    assert TokenText(t) + "" == TokenText(t);
  }

  /** A character outside the code alphabet leaves the token as literal text. */
  lemma UnwrapForeignCode()
    ensures Unwrap("{§x}") == "{§x}"
  {
    var s := "{§x}";
    assert !IsCodeChar('x');
    assert MatchToken(s) == None;
    assert s[1..] == "§x}";
    UnwrapWithoutBrace("§x}");
  }

  /** Two spaces in one slot are more than the matcher tolerates. */
  lemma UnwrapTwoSpaces()
    ensures Unwrap("{  §a}") == "{  §a}"
  {
    var s := "{  §a}";
    assert MatchToken(s) == None;
    assert s[1..] == "  §a}";
    UnwrapWithoutBrace("  §a}");
  }
}
