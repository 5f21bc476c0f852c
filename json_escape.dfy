/**
 * The JSON escaping done by `escapeJSON` in monitor.go: four passes of Go's
 * `strings.ReplaceAll`, for backslash, double quote, line feed and carriage
 * return, in that order.  The result is spliced between the quotes of a JSON
 * string literal (RFC 8259, section 7).
 */
module JsonEscape {
  import opened Wrappers

  // ---------------------------------------------------------------------
  // strings.ReplaceAll
  // ---------------------------------------------------------------------

  /**
   * Go's `strings.ReplaceAll(s, pat, rep)`: scanning left to right, every
   * non-overlapping occurrence of `pat` is replaced by `rep`, and the text
   * after the last occurrence is copied unchanged.  An empty `pat` matches
   * before every character and at the end.  Characters stand for runes.
   */
  function ReplaceAll(s: string, pat: string, rep: string): (r: string)
    ensures pat != [] && !Occurs(s, pat) ==> r == s
    decreases |s|
  {
    if pat == [] then InsertAround(s, rep)
    else if |s| < |pat| then s
    else if s[..|pat|] == pat then
      assert OccursAt(s, pat, 0);
      rep + ReplaceAll(s[|pat|..], pat, rep)
    else
      OccursInTail(s, pat);
      [s[0]] + ReplaceAll(s[1..], pat, rep)
  }

  /** `pat` occurs in `s` at position `i`. */
  predicate OccursAt(s: string, pat: string, i: nat)
  {
    i + |pat| <= |s| && s[i..i + |pat|] == pat
  }

  /** `pat` occurs somewhere in `s`. */
  ghost predicate Occurs(s: string, pat: string)
  {
    exists i: nat | i <= |s| :: OccursAt(s, pat, i)
  }

  lemma OccursInTail(s: string, pat: string)
    requires s != []
    ensures Occurs(s[1..], pat) ==> Occurs(s, pat)
  {
    if Occurs(s[1..], pat) {
      var i: nat :| i <= |s[1..]| && OccursAt(s[1..], pat, i);
      assert i + |pat| <= |s| - 1;
      assert s[i + 1..i + 1 + |pat|] == s[1..][i..i + |pat|];
      assert OccursAt(s, pat, i + 1);
    }
  }

  /** `rep` before each character of `s` and once more at the end. */
  function InsertAround(s: string, rep: string): string
  {
    if s == [] then rep else rep + [s[0]] + InsertAround(s[1..], rep)
  }

  /** Reference definition: replace each occurrence of the character `c`, one character at a time. */
  function SubstChar(s: string, c: char, rep: string): string
  {
    if s == [] then [] else (if s[0] == c then rep else [s[0]]) + SubstChar(s[1..], c, rep)
  }

  /** With a one-character pattern, ReplaceAll is the per-character substitution. */
  lemma {:induction false} ReplaceAllOneChar(s: string, c: char, rep: string)
    ensures ReplaceAll(s, [c], rep) == SubstChar(s, c, rep)
  {
    if s != [] {
      assert s[..1] == [c] <==> s[0] == c;
      ReplaceAllOneChar(s[1..], c, rep);
    }
  }

  lemma {:induction false} SubstCharAppend(a: string, b: string, c: char, rep: string)
    ensures SubstChar(a + b, c, rep) == SubstChar(a, c, rep) + SubstChar(b, c, rep)
  {
    if a == [] {
      assert a + b == b;
    } else {
      assert (a + b)[0] == a[0];
      assert (a + b)[1..] == a[1..] + b;
      SubstCharAppend(a[1..], b, c, rep);
    }
  }

  lemma SubstCharSingle(x: char, c: char, rep: string)
    ensures SubstChar([x], c, rep) == if x == c then rep else [x]
  {
    assert [x][1..] == [];
  }

  lemma {:induction false} SubstCharAbsent(s: string, c: char, rep: string)
    requires c !in s
    ensures SubstChar(s, c, rep) == s
  {
    if s != [] {
      assert s == [s[0]] + s[1..];
      SubstCharAbsent(s[1..], c, rep);
    }
  }

  // ---------------------------------------------------------------------
  // escapeJSON
  // ---------------------------------------------------------------------

  /**
   * `escapeJSON` as written: four ReplaceAll passes, backslash first.
   * Because the backslash goes first, the passes together are one
   * left-to-right per-character substitution: no backslash inserted by a
   * later pass is escaped again.
   */
  function EscapeJSON(s: string): (r: string)
    ensures r == EscapeEach(s)
  {
    var s1 := ReplaceAll(s, "\\", "\\\\");
    ReplaceAllOneChar(s, '\\', "\\\\");
    var s2 := ReplaceAll(s1, "\"", "\\\"");
    ReplaceAllOneChar(s1, '"', "\\\"");
    var s3 := ReplaceAll(s2, "\n", "\\n");
    ReplaceAllOneChar(s2, '\n', "\\n");
    ReplaceAllOneChar(s3, '\r', "\\r");
    PassesAreEscapeEach(s);
    ReplaceAll(s3, "\r", "\\r")
  }

  /** The four characters that escapeJSON rewrites. */
  predicate IsSpecial(c: char)
  {
    c == '\\' || c == '"' || c == '\n' || c == '\r'
  }

  /** What a single character becomes. */
  function EscapeChar(c: char): string
  {
    match c
    case '\\' => "\\\\"
    case '"' => "\\\""
    case '\n' => "\\n"
    case '\r' => "\\r"
    case _ => [c]
  }

  /** Reference definition: every character escaped on its own, left to right. */
  function EscapeEach(s: string): string
  {
    if s == [] then [] else EscapeChar(s[0]) + EscapeEach(s[1..])
  }

  /** The four passes over `s`, written with the reference substitution. */
  function Passes(s: string): string
  {
    SubstChar(SubstChar(SubstChar(SubstChar(s, '\\', "\\\\"), '"', "\\\""), '\n', "\\n"), '\r', "\\r")
  }

  lemma {:induction false} PassesAppend(a: string, b: string)
    ensures Passes(a + b) == Passes(a) + Passes(b)
  {
    var a1, b1 := SubstChar(a, '\\', "\\\\"), SubstChar(b, '\\', "\\\\");
    SubstCharAppend(a, b, '\\', "\\\\");
    var a2, b2 := SubstChar(a1, '"', "\\\""), SubstChar(b1, '"', "\\\"");
    SubstCharAppend(a1, b1, '"', "\\\"");
    var a3, b3 := SubstChar(a2, '\n', "\\n"), SubstChar(b2, '\n', "\\n");
    SubstCharAppend(a2, b2, '\n', "\\n");
    SubstCharAppend(a3, b3, '\r', "\\r");
  }

  /** On one character the four passes give EscapeChar: what an earlier pass inserts is never touched by a later one. */
  lemma PassesOneChar(c: char)
    ensures Passes([c]) == EscapeChar(c)
  {
    var s1 := SubstChar([c], '\\', "\\\\");
    SubstCharSingle(c, '\\', "\\\\");
    var s2 := SubstChar(s1, '"', "\\\"");
    if c == '\\' {
      SubstCharAbsent(s1, '"', "\\\"");
    } else {
      SubstCharSingle(c, '"', "\\\"");
    }
    var s3 := SubstChar(s2, '\n', "\\n");
    if c == '\\' || c == '"' {
      SubstCharAbsent(s2, '\n', "\\n");
    } else {
      SubstCharSingle(c, '\n', "\\n");
    }
    if c == '\\' || c == '"' || c == '\n' {
      SubstCharAbsent(s3, '\r', "\\r");
    } else {
      SubstCharSingle(c, '\r', "\\r");
    }
  }

  lemma {:induction false} PassesAreEscapeEach(s: string)
    ensures Passes(s) == EscapeEach(s)
  {
    if s != [] {
      assert s == [s[0]] + s[1..];
      PassesAppend([s[0]], s[1..]);
      PassesOneChar(s[0]);
      PassesAreEscapeEach(s[1..]);
    }
  }

  /** The same passes with the double quote replaced before the backslash. */
  function EscapeQuoteFirst(s: string): string
  {
    var s1 := ReplaceAll(s, "\"", "\\\"");
    var s2 := ReplaceAll(s1, "\\", "\\\\");
    var s3 := ReplaceAll(s2, "\n", "\\n");
    ReplaceAll(s3, "\r", "\\r")
  }

  // ---------------------------------------------------------------------
  // Reading the escaped text back
  // ---------------------------------------------------------------------

  /** The character that an escape `\x` stands for, for the four escapes escapeJSON writes. */
  function Unescaped(x: char): Option<char>
  {
    match x
    case '\\' => Some('\\')
    case '"' => Some('"')
    case 'n' => Some('\n')
    case 'r' => Some('\r')
    case _ => None
  }

  function Prepend(c: char, r: Option<(string, string)>): Option<(string, string)>
  {
    match r
    case None => None
    case Some((s, rest)) => Some(([c] + s, rest))
  }

  /**
   * Reads the inside of a string literal whose opening quote has been
   * consumed, left to right, up to its closing quote: `\\`, `\"`, `\n` and
   * `\r` stand for backslash, quote, line feed and carriage return, any other
   * character other than a raw line break stands for itself.  Gives the
   * decoded text and what follows the closing quote; None for a raw line
   * break, another escape, a trailing backslash or a missing closing quote.
   */
  function ReadBody(t: string): Option<(string, string)>
    decreases |t|
  {
    if t == [] then None
    else if t[0] == '"' then Some(([], t[1..]))
    else if t[0] == '\n' || t[0] == '\r' then None
    else if t[0] == '\\' then
      if |t| < 2 then None
      else match Unescaped(t[1])
        case None => None
        case Some(c) => Prepend(c, ReadBody(t[2..]))
    else Prepend(t[0], ReadBody(t[1..]))
  }

  /** Decodes a whole escaped text: it must read as one string body with nothing after it. */
  function Unescape(t: string): Option<string>
  {
    match ReadBody(t + ['"'])
    case Some((s, rest)) => if rest == [] then Some(s) else None
    case None => None
  }

  /** Reading one escaped character back gives that character. */
  lemma ReadBodyEscapeChar(c: char, tail: string)
    ensures ReadBody(EscapeChar(c) + tail) == Prepend(c, ReadBody(tail))
  {
    var t := EscapeChar(c) + tail;
    if IsSpecial(c) {
      assert t[2..] == tail;
    } else {
      assert t[1..] == tail;
    }
  }

  lemma {:induction false} ReadBodyOfEscapeEach(m: string, rest: string)
    ensures ReadBody(EscapeEach(m) + ['"'] + rest) == Some((m, rest))
  {
    if m == [] {
      assert EscapeEach(m) + ['"'] + rest == ['"'] + rest;
    } else {
      var tail := EscapeEach(m[1..]) + ['"'] + rest;
      assert EscapeEach(m) + ['"'] + rest == EscapeChar(m[0]) + tail;
      ReadBodyEscapeChar(m[0], tail);
      ReadBodyOfEscapeEach(m[1..], rest);
      assert m == [m[0]] + m[1..];
    }
  }

  lemma {:induction false} ReadBodyIsEscapeEach(t: string)
    ensures ReadBody(t).Some? ==> t == EscapeEach(ReadBody(t).value.0) + ['"'] + ReadBody(t).value.1
    decreases |t|
  {
    if t != [] && t[0] != '"' && t[0] != '\n' && t[0] != '\r' {
      if t[0] == '\\' {
        if |t| >= 2 && Unescaped(t[1]).Some? {
          ReadBodyIsEscapeEach(t[2..]);
          if ReadBody(t[2..]).Some? {
            var c := Unescaped(t[1]).value;
            var s := ReadBody(t[2..]).value.0;
            assert EscapeEach([c] + s) == EscapeChar(c) + EscapeEach(s);
            assert t == t[..2] + t[2..];
          }
        }
      } else {
        ReadBodyIsEscapeEach(t[1..]);
        if ReadBody(t[1..]).Some? {
          var s := ReadBody(t[1..]).value.0;
          assert EscapeEach([t[0]] + s) == EscapeChar(t[0]) + EscapeEach(s);
          assert t == [t[0]] + t[1..];
        }
      }
    }
  }

  /**
   * The text escapeJSON produces, spliced between quotes, reads back as
   * exactly the original string, and the literal ends at the quote placed
   * after it and not earlier.
   */
  lemma ReadBodyOfEscapeJSON(m: string, rest: string)
    ensures ReadBody(EscapeJSON(m) + ['"'] + rest) == Some((m, rest))
  {
    ReadBodyOfEscapeEach(m, rest);
  }

  /** Conversely, every string body that reads successfully is the escapeJSON of what it reads as. */
  lemma ReadBodyOnlyOfEscapeJSON(t: string, m: string, rest: string)
    requires ReadBody(t) == Some((m, rest))
    ensures t == EscapeJSON(m) + ['"'] + rest
  {
    ReadBodyIsEscapeEach(t);
  }

  /** Unescaping is the exact inverse of escapeJSON, in both directions. */
  lemma UnescapeInverse(t: string, s: string)
    ensures Unescape(t) == Some(s) <==> t == EscapeJSON(s)
  {
    if t == EscapeJSON(s) {
      ReadBodyOfEscapeJSON(s, []);
      assert EscapeJSON(s) + ['"'] + [] == t + ['"'];
    }
    if Unescape(t) == Some(s) {
      ReadBodyOnlyOfEscapeJSON(t + ['"'], s, []);
      assert t + ['"'] == EscapeJSON(s) + ['"'];
      assert t == (t + ['"'])[..|t|];
    }
  }

  /** The round trip: unescaping the output of escapeJSON gives back the input. */
  lemma UnescapeEscapeJSON(s: string)
    ensures Unescape(EscapeJSON(s)) == Some(s)
  {
    UnescapeInverse(EscapeJSON(s), s);
  }

  /** escapeJSON is injective: different messages give different payload texts. */
  lemma EscapeJSONInjective(s: string, u: string)
    requires EscapeJSON(s) == EscapeJSON(u)
    ensures s == u
  {
    UnescapeEscapeJSON(s);
    UnescapeEscapeJSON(u);
  }

  /**
   * Replacing the quote before the backslash would double the backslash of
   * every inserted `\"`: a lone quote would come out as `\\"`, which no
   * longer decodes, because its quote now closes the literal early.
   */
  lemma QuoteFirstBreaksRoundTrip()
    ensures EscapeQuoteFirst("\"") == "\\\\\""
    ensures Unescape(EscapeQuoteFirst("\"")) == None
  {
    var s1 := ReplaceAll("\"", "\"", "\\\"");
    assert s1 == "\\\"";
    ReplaceAllOneChar(s1, '\\', "\\\\");
    var s2 := ReplaceAll(s1, "\\", "\\\\");
    assert s2 == "\\\\\"";
    ReplaceAllOneChar(s2, '\n', "\\n");
    SubstCharAbsent(s2, '\n', "\\n");
    ReplaceAllOneChar(s2, '\r', "\\r");
    SubstCharAbsent(s2, '\r', "\\r");
    var t := s2 + ['"'];
    assert t[2..] == ['"', '"'];
    assert ReadBody(t[2..]) == Some(([], ['"']));
    assert t[0] == '\\' && t[1] == '\\' && Unescaped(t[1]) == Some('\\');
    assert ['\\'] + [] == "\\";
    assert ReadBody(t) == Some(("\\", ['"']));
  }

  // ---------------------------------------------------------------------
  // Properties of the escaped text
  // ---------------------------------------------------------------------

  function CountSpecial(s: string): nat
  {
    if s == [] then 0 else (if IsSpecial(s[0]) then 1 else 0) + CountSpecial(s[1..])
  }

  lemma {:induction false} EscapeEachShape(s: string)
    ensures |EscapeEach(s)| == |s| + CountSpecial(s)
    ensures forall i :: 0 <= i < |EscapeEach(s)| ==> EscapeEach(s)[i] != '\n' && EscapeEach(s)[i] != '\r'
  {
    if s != [] {
      EscapeEachShape(s[1..]);
      var e, r := EscapeChar(s[0]), EscapeEach(s[1..]);
      assert EscapeEach(s) == e + r;
      forall i | 0 <= i < |e + r| ensures (e + r)[i] != '\n' && (e + r)[i] != '\r' {
        if i >= |e| {
          assert (e + r)[i] == r[i - |e|];
        }
      }
    }
  }

  /** The output carries no raw line feed or carriage return. */
  lemma EscapeJSONNoRawLineBreaks(s: string)
    ensures forall i :: 0 <= i < |EscapeJSON(s)| ==> EscapeJSON(s)[i] != '\n' && EscapeJSON(s)[i] != '\r'
  {
    EscapeEachShape(s);
  }

  /** The output is one character longer than the input for each of the four special characters. */
  lemma EscapeJSONLength(s: string)
    ensures |EscapeJSON(s)| == |s| + CountSpecial(s)
  {
    EscapeEachShape(s);
  }

  lemma {:induction false} CountSpecialZero(s: string)
    ensures CountSpecial(s) == 0 <==> forall i :: 0 <= i < |s| ==> !IsSpecial(s[i])
  {
    if s != [] {
      CountSpecialZero(s[1..]);
      assert forall i :: 1 <= i < |s| ==> s[i] == s[1..][i - 1];
    }
  }

  lemma {:induction false} EscapeEachPlain(s: string)
    requires forall i :: 0 <= i < |s| ==> !IsSpecial(s[i])
    ensures EscapeEach(s) == s
  {
    if s != [] {
      assert forall i :: 0 <= i < |s[1..]| ==> s[1..][i] == s[i + 1];
      EscapeEachPlain(s[1..]);
      assert s == [s[0]] + s[1..];
    }
  }

  /** escapeJSON leaves a string unchanged exactly when it holds none of the four special characters. */
  lemma EscapeJSONUnchangedIff(s: string)
    ensures EscapeJSON(s) == s <==> forall i :: 0 <= i < |s| ==> !IsSpecial(s[i])
  {
    EscapeJSONLength(s);
    CountSpecialZero(s);
    if forall i :: 0 <= i < |s| ==> !IsSpecial(s[i]) {
      EscapeEachPlain(s);
    }
  }

  // ---------------------------------------------------------------------
  // RFC 8259, section 7
  // ---------------------------------------------------------------------

  /** A character that may stand unescaped in a JSON string: %x20-21 / %x23-5B / %x5D-10FFFF. */
  predicate IsJsonUnescaped(c: char)
  {
    c >= ' ' && c != '"' && c != '\\'
  }

  predicate IsHexDigit(c: char)
  {
    ('0' <= c <= '9') || ('a' <= c <= 'f') || ('A' <= c <= 'F')
  }

  /** The characters between the quotes of a JSON string, as the grammar of RFC 8259, section 7 allows them. */
  predicate IsJsonStringBody(t: string)
    decreases |t|
  {
    if t == [] then true
    else if t[0] == '\\' then
      |t| >= 2 &&
      if t[1] in "\"\\/bfnrt" then IsJsonStringBody(t[2..])
      else t[1] == 'u' && |t| >= 6 && IsHexDigit(t[2]) && IsHexDigit(t[3]) && IsHexDigit(t[4]) && IsHexDigit(t[5])
           && IsJsonStringBody(t[6..])
    else IsJsonUnescaped(t[0]) && IsJsonStringBody(t[1..])
  }

  /** A character escapeJSON leaves as it is although RFC 8259 requires it escaped. */
  predicate IsUnhandledControl(c: char)
  {
    c < ' ' && c != '\n' && c != '\r'
  }

  lemma {:induction false} EscapeEachJsonIff(s: string)
    ensures IsJsonStringBody(EscapeEach(s)) <==> forall i :: 0 <= i < |s| ==> !IsUnhandledControl(s[i])
  {
    if s != [] {
      EscapeEachJsonIff(s[1..]);
      var e, r := EscapeChar(s[0]), EscapeEach(s[1..]);
      assert EscapeEach(s) == e + r;
      if IsSpecial(s[0]) {
        assert (e + r)[2..] == r;
      } else {
        assert (e + r)[1..] == r;
      }
      assert forall i :: 1 <= i < |s| ==> s[i] == s[1..][i - 1];
    }
  }

  /**
   * escapeJSON's output is a valid JSON string body exactly when the input
   * holds no control character other than line feed and carriage return:
   * tab, NUL and the other characters below U+0020 pass through raw.
   */
  lemma EscapeJSONValidJsonIff(s: string)
    ensures IsJsonStringBody(EscapeJSON(s)) <==> forall i :: 0 <= i < |s| ==> !IsUnhandledControl(s[i])
  {
    EscapeEachJsonIff(s);
  }
}
