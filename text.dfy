/** String operations the browser scripts rely on: the order used to sort
    (standing in for `localeCompare`), number-to-string conversion and the
    loose `==` between a number and a string, `String.prototype.trim`, and the
    apostrophe escape applied to project names in main.js. */
module Text {
  import opened Common

  // ---------------------------------------------------------------------------
  // Order on strings
  // ---------------------------------------------------------------------------

  /** Lexicographic order on Dafny characters, that is on Unicode code
      points; `a.localeCompare(b) <= 0` is modelled by `LexLeq(a, b)`. Any
      total order would serve the stability and sortedness results below. */
  predicate LexLeq(a: string, b: string)
  {
    |a| == 0 || (|b| > 0 && (a[0] < b[0] || (a[0] == b[0] && LexLeq(a[1..], b[1..]))))
  }

  lemma {:induction false} LexLeqReflexive(a: string)
    ensures LexLeq(a, a)
  {
    if |a| > 0 { LexLeqReflexive(a[1..]); }
  }

  lemma {:induction false} LexLeqTotal(a: string, b: string)
    ensures LexLeq(a, b) || LexLeq(b, a)
  {
    if |a| > 0 && |b| > 0 && a[0] == b[0] { LexLeqTotal(a[1..], b[1..]); }
  }

  lemma {:induction false} LexLeqAntisymmetric(a: string, b: string)
    requires LexLeq(a, b) && LexLeq(b, a)
    ensures a == b
  {
    if |a| > 0 && |b| > 0 {
      LexLeqAntisymmetric(a[1..], b[1..]);
      assert a == [a[0]] + a[1..] && b == [b[0]] + b[1..];
    }
  }

  lemma {:induction false} LexLeqTransitive(a: string, b: string, c: string)
    requires LexLeq(a, b) && LexLeq(b, c)
    ensures LexLeq(a, c)
  {
    if |a| > 0 && |b| > 0 && |c| > 0 && a[0] == b[0] == c[0] {
      LexLeqTransitive(a[1..], b[1..], c[1..]);
    }
  }

  /** The empty string precedes every string, and only the empty string
      precedes the empty string. */
  lemma EmptyIsLeast(a: string)
    ensures LexLeq("", a)
    ensures LexLeq(a, "") <==> a == ""
  {
  }

  // ---------------------------------------------------------------------------
  // Numbers as decimal strings
  // ---------------------------------------------------------------------------

  predicate IsDigit(c: char) { '0' <= c <= '9' }

  predicate AllDigits(s: string) { forall i | 0 <= i < |s| :: IsDigit(s[i]) }

  function DigitChar(d: nat): (c: char)
    requires d < 10
    ensures IsDigit(c) && c as int - '0' as int == d
  {
    ('0' as int + d) as char
  }

  /** The decimal numeral of a natural number, without leading zeros. */
  function NatToString(n: nat): (s: string)
    ensures |s| > 0 && AllDigits(s)
    ensures |s| > 1 ==> s[0] != '0'
    decreases n
  {
    if n < 10 then [DigitChar(n)] else NatToString(n / 10) + [DigitChar(n % 10)]
  }

  /** `String(n)`, or a number placed in a template literal or assigned to a
      form field's `value`. */
  function IntToString(n: int): (s: string)
    ensures |s| > 0
  {
    if n < 0 then "-" + NatToString(-n) else NatToString(n)
  }

  /** The value of a non-empty run of decimal digits. */
  function DigitsValue(s: string): nat
    requires AllDigits(s)
  {
    if s == [] then 0 else DigitsValue(s[..|s| - 1]) * 10 + (s[|s| - 1] as int - '0' as int)
  }

  /** `Number(s)` for strings that are a decimal integer numeral with an
      optional minus sign; `None` stands for every other string. */
  function ParseDecimal(s: string): (r: Option<int>)
    ensures r.Some? ==> s != [] && forall i | 0 <= i < |s| :: IsDigit(s[i]) || (i == 0 && s[i] == '-')
    ensures r.Some? && r.value < 0 ==> s[0] == '-'
  {
    if |s| > 1 && s[0] == '-' && AllDigits(s[1..]) then Some(0 - DigitsValue(s[1..]))
    else if |s| > 0 && AllDigits(s) then Some(DigitsValue(s))
    else None
  }

  /** JavaScript's `n == s` between a number and a string: the string is
      converted to a number and the two are compared. */
  predicate LooseEquals(n: int, s: string)
  {
    ParseDecimal(s) == Some(n)
  }

  lemma {:induction false} NatToStringValue(n: nat)
    ensures DigitsValue(NatToString(n)) == n
    decreases n
  {
    var s := NatToString(n);
    if n >= 10 {
      NatToStringValue(n / 10);
      assert s[..|s| - 1] == NatToString(n / 10);
    }
  }

  /** A number and its own decimal string are loosely equal: the value of a
      `<option value="${p.id}">` matches `p.id` under `==`. */
  lemma IntToStringLooselyEqual(n: int)
    ensures ParseDecimal(IntToString(n)) == Some(n)
    ensures LooseEquals(n, IntToString(n))
  {
    if n < 0 {
      var s := IntToString(n);
      assert s[1..] == NatToString(-n);
      NatToStringValue(-n);
    } else {
      NatToStringValue(n);
      if n < 10 { assert IntToString(n) == [DigitChar(n)]; }
    }
  }

  // ---------------------------------------------------------------------------
  // String.prototype.trim
  // ---------------------------------------------------------------------------

  /** ECMAScript WhiteSpace and LineTerminator code points, which `trim`
      removes from both ends. */
  predicate IsSpace(c: char)
  {
    || c == '\t' || c == '\n' || c == '\r' || c == ' '
    || c == '\U{000B}' || c == '\U{000C}' || c == '\U{00A0}' || c == '\U{1680}'
    || ('\U{2000}' <= c <= '\U{200A}')
    || c == '\U{2028}' || c == '\U{2029}' || c == '\U{202F}' || c == '\U{205F}'
    || c == '\U{3000}' || c == '\U{FEFF}'
  }

  /** Every character of `s` between positions `lo` and `hi` is white space. */
  predicate SpaceBetween(s: string, lo: int, hi: int)
    requires 0 <= lo <= hi <= |s|
  {
    forall i | lo <= i < hi :: IsSpace(s[i])
  }

  predicate AllSpace(s: string) { SpaceBetween(s, 0, |s|) }

  /** Number of leading white-space characters. */
  function LeadingSpaces(s: string): (k: nat)
    ensures k <= |s| && SpaceBetween(s, 0, k)
    ensures k < |s| ==> !IsSpace(s[k])
  {
    if s == [] || !IsSpace(s[0]) then 0
    else
      var k := 1 + LeadingSpaces(s[1..]);
      assert forall i | 1 <= i < k :: s[i] == s[1..][i - 1];
      k
  }

  /** Number of trailing white-space characters. */
  function TrailingSpaces(s: string): (k: nat)
    ensures k <= |s| && SpaceBetween(s, |s| - k, |s|)
    ensures k < |s| ==> !IsSpace(s[|s| - k - 1])
  {
    if s == [] || !IsSpace(s[|s| - 1]) then 0
    else
      var init := s[..|s| - 1];
      var k := 1 + TrailingSpaces(init);
      assert forall i | |s| - k <= i < |s| - 1 :: s[i] == init[i];
      k
  }

  /** `s.trim()`: the string with white space removed from both ends. The
      result is the piece of `s` between two positions such that everything
      before and after it is white space and it neither starts nor ends with
      white space; it is empty exactly when `s` is all white space. */
  function Trim(s: string): (r: string)
    ensures exists i, j :: 0 <= i <= j <= |s| && r == s[i..j] && SpaceBetween(s, 0, i) && SpaceBetween(s, j, |s|)
    ensures r != [] ==> !IsSpace(r[0]) && !IsSpace(r[|r| - 1])
    ensures r == [] <==> AllSpace(s)
  {
    var i := LeadingSpaces(s);
    if i == |s| then
      assert s[i..i] == [];
      []
    else
      var t := s[i..];
      var j := i + |t| - TrailingSpaces(t);
      assert forall m | j <= m < |s| :: s[m] == t[m - i];
      assert j > i;
      s[i..j]
  }

  // ---------------------------------------------------------------------------
  // Apostrophe escape of project names (main.js)
  // ---------------------------------------------------------------------------

  const Apostrophe: char := '\''
  const ApostropheEntity: string := "&#39;"

  function Count(s: string, c: char): nat
  {
    if s == [] then 0 else (if s[0] == c then 1 else 0) + Count(s[1..], c)
  }

  /** `s.replace(/'/g, "&#39;")`. */
  function EscapeApostrophes(s: string): (r: string)
    ensures Apostrophe !in r
    ensures |r| == |s| + 4 * Count(s, Apostrophe)
    ensures Apostrophe !in s ==> r == s
  {
    if s == [] then []
    else (if s[0] == Apostrophe then ApostropheEntity else [s[0]]) + EscapeApostrophes(s[1..])
  }

  /** What the HTML parser does to the reference `&#39;` in an attribute
      value: every `&#39;`, read left to right, becomes `'`. A text without
      `&` holds no reference and is left as it is. */
  function UnescapeApostrophes(s: string): (r: string)
    ensures '&' !in s ==> r == s
  {
    if s == [] then []
    else if |s| >= 5 && s[..5] == ApostropheEntity then
      assert s[0] == s[..5][0] == '&';
      [Apostrophe] + UnescapeApostrophes(s[5..])
    else [s[0]] + UnescapeApostrophes(s[1..])
  }

  /** The five characters `&#39;` start at position `i` of `s`. */
  predicate EntityAt(s: string, i: nat)
  {
    i + 5 <= |s| && s[i..i + 5] == ApostropheEntity
  }

  /** `s` contains the text `&#39;` somewhere. */
  predicate HasEntity(s: string)
  {
    exists i: nat | i < |s| :: EntityAt(s, i)
  }

  /** Every `&#39;` starts with `&`. */
  lemma EntityStartsWithAmpersand(s: string, i: nat)
    ensures EntityAt(s, i) ==> s[i] == '&'
  {
    if EntityAt(s, i) {
      assert s[i] == s[i..i + 5][0];
    }
  }

  /** So a text without `&` holds no `&#39;`. */
  lemma NoAmpersandNoEntity(s: string)
    requires '&' !in s
    ensures !HasEntity(s)
  {
    forall i: nat | i < |s| ensures !EntityAt(s, i) {
      EntityStartsWithAmpersand(s, i);
    }
  }

  /** Escaping maps every character other than `'` to itself and `'` to a text
      starting with `&`: so as long as an escaped text has no `&`, it agrees
      with the original. */
  lemma {:induction false} EscapedPrefix(t: string, k: nat)
    requires k <= |EscapeApostrophes(t)|
    requires forall i | 0 <= i < k :: EscapeApostrophes(t)[i] != '&'
    ensures k <= |t| && t[..k] == EscapeApostrophes(t)[..k]
  {
    if k > 0 {
      var e := EscapeApostrophes(t);
      assert t != [];
      assert e[0] != '&';
      assert t[0] != Apostrophe;
      var e1 := EscapeApostrophes(t[1..]);
      assert e == [t[0]] + e1;
      forall i | 0 <= i < k - 1 ensures e1[i] != '&' {
        assert e1[i] == e[i + 1];
      }
      EscapedPrefix(t[1..], k - 1);
      assert t[..k] == [t[0]] + t[1..][..k - 1];
      assert e[..k] == [t[0]] + e1[..k - 1];
    }
  }

  lemma {:induction false} NoEntityInTail(s: string)
    requires s != [] && !HasEntity(s)
    ensures !HasEntity(s[1..])
  {
    forall i: nat | i < |s[1..]| ensures !EntityAt(s[1..], i) {
      assert !EntityAt(s, i + 1);
      if i + 5 <= |s[1..]| { assert s[1..][i..i + 5] == s[i + 1..i + 6]; }
    }
  }

  lemma EntityAtFront(s: string)
    requires |s| >= 5 && forall i | 0 <= i < 5 :: s[i] == ApostropheEntity[i]
    ensures EntityAt(s, 0)
  {
    assert s[0..5] == ApostropheEntity;
  }

  /** The escape of a name that does not start with `&#39;` and whose first
      character is not `'` does not start with `&#39;` either. */
  lemma {:induction false} NoEntityAtFront(s: string)
    requires s != [] && s[0] != Apostrophe && !HasEntity(s)
    ensures var e := EscapeApostrophes(s); !(|e| >= 5 && e[..5] == ApostropheEntity)
  {
    var rest := EscapeApostrophes(s[1..]);
    var e := EscapeApostrophes(s);
    assert e == [s[0]] + rest;
    if |e| >= 5 && e[..5] == ApostropheEntity {
      forall i | 0 <= i < 4 ensures rest[i] == ApostropheEntity[i + 1] && rest[i] != '&' {
        assert rest[i] == e[i + 1] == e[..5][i + 1];
      }
      EscapedPrefix(s[1..], 4);
      forall i | 0 <= i < 5 ensures s[i] == ApostropheEntity[i] {
        if i == 0 { assert s[0] == e[0] == e[..5][0]; }
        else { assert s[i] == s[1..][..4][i - 1] == rest[i - 1]; }
      }
      EntityAtFront(s);
      assert false;
    }
  }

  /** Un-escaping gives back the name, for every name that does not already
      contain the text `&#39;`. */
  lemma {:induction false} UnescapeEscape(s: string)
    requires !HasEntity(s)
    ensures UnescapeApostrophes(EscapeApostrophes(s)) == s
  {
    if s != [] {
      var rest := EscapeApostrophes(s[1..]);
      NoEntityInTail(s);
      UnescapeEscape(s[1..]);
      if s[0] == Apostrophe {
        assert EscapeApostrophes(s) == ApostropheEntity + rest;
        assert (ApostropheEntity + rest)[..5] == ApostropheEntity;
        assert (ApostropheEntity + rest)[5..] == rest;
      } else {
        var e := [s[0]] + rest;
        assert EscapeApostrophes(s) == e;
        NoEntityAtFront(s);
        assert e[1..] == rest;
      }
    }
  }

  /** A name that already contains `&#39;` does not survive the round trip:
      the escape leaves the entity as it is and un-escaping turns it into `'`. */
  lemma EntityNameIsNotRecovered()
    ensures EscapeApostrophes("&#39;") == "&#39;"
    ensures UnescapeApostrophes(EscapeApostrophes("&#39;")) == "'"
  {
    assert Apostrophe !in "&#39;";
    assert UnescapeApostrophes("&#39;") == [Apostrophe] + UnescapeApostrophes("");
  }

  // ---------------------------------------------------------------------------
  // Single-quoted JavaScript string literals
  // ---------------------------------------------------------------------------

  /** A character that stands for itself inside a single-quoted literal. */
  predicate PlainChar(c: char)
  {
    c != '\'' && c != '\\' && c != '\n' && c != '\r'
  }

  /** The character an escape `\c` stands for, for the escapes modelled. */
  function EscapedChar(c: char): Option<char>
  {
    if c == '\'' || c == '"' || c == '\\' then Some(c)
    else if c == 'n' then Some('\n')
    else if c == 'r' then Some('\r')
    else None
  }

  /** Reads a single-quoted literal whose opening `'` has just been read:
      its value, and how many characters of `s` it spans up to and including
      the closing `'`. `None` for a literal that is not closed, that holds a
      line break, or that uses an escape other than `\'`, `\"`, `\\`, `\n`
      and `\r`. */
  function LiteralValue(s: string): (r: Option<(string, nat)>)
    ensures r.Some? ==> 0 < r.value.1 <= |s| && s[r.value.1 - 1] == '\''
  {
    if s == [] then None
    else if s[0] == '\'' then Some(([], 1))
    else if s[0] == '\n' || s[0] == '\r' then None
    else if s[0] == '\\' then
      if |s| < 2 || EscapedChar(s[1]).None? then None
      else
        var rest := LiteralValue(s[2..]);
        if rest.None? then None else Some(([EscapedChar(s[1]).value] + rest.value.0, rest.value.1 + 2))
    else
      var rest := LiteralValue(s[1..]);
      if rest.None? then None else Some(([s[0]] + rest.value.0, rest.value.1 + 1))
  }

  /** A literal ends at the first `'` when every character before it is
      plain: its value is exactly the text before that `'`. */
  lemma {:induction false} LiteralEndsAtQuote(s: string, k: nat)
    requires k < |s| && s[k] == Apostrophe
    requires forall i | 0 <= i < k :: PlainChar(s[i])
    ensures LiteralValue(s) == Some((s[..k], k + 1))
  {
    if k > 0 {
      LiteralEndsAtQuote(s[1..], k - 1);
      assert s[..k] == [s[0]] + s[1..][..k - 1];
    }
  }

  /** A text holding a `'` after plain characters only, read as a literal
      whatever follows it: the literal ends at that `'` and its value is the
      proper prefix before it. */
  lemma LiteralEndsInside(s: string, tail: string, k: nat)
    requires k < |s| && s[k] == Apostrophe
    requires forall i | 0 <= i < k :: PlainChar(s[i])
    ensures LiteralValue(s + tail) == Some((s[..k], k + 1))
    ensures s[..k] != s
  {
    var src := s + tail;
    assert src[..k] == s[..k];
    LiteralEndsAtQuote(src, k);
    assert |s[..k]| < |s|;
  }

  function QuotedChar(c: char): string
  {
    if c == '\'' then "\\'"
    else if c == '\\' then "\\\\"
    else if c == '\n' then "\\n"
    else if c == '\r' then "\\r"
    else [c]
  }

  /** `s` written as the content of a single-quoted JavaScript literal:
      `\` before every `\` and `'`, and line breaks as `\n` and `\r`. The
      result holds no `&` the input did not. */
  function JsQuote(s: string): (r: string)
    ensures '&' !in s ==> '&' !in r
  {
    if s == [] then [] else QuotedChar(s[0]) + JsQuote(s[1..])
  }

  /** One quoted character in front of a literal adds that character to its
      value. */
  lemma QuotedCharStep(c: char, tail: string, v: string, n: nat)
    requires LiteralValue(tail) == Some((v, n))
    ensures LiteralValue(QuotedChar(c) + tail) == Some(([c] + v, n + |QuotedChar(c)|))
  {
    var whole := QuotedChar(c) + tail;
    if PlainChar(c) {
      assert whole[0] == c && whole[1..] == tail;
    } else {
      assert whole[0] == '\\' && EscapedChar(whole[1]) == Some(c) && whole[2..] == tail;
    }
  }

  /** Quoting round-trips: the literal `'` + `JsQuote(s)` + `'` reads back as
      `s`, whatever follows it. */
  lemma {:induction false} LiteralOfQuoted(s: string, rest: string)
    ensures LiteralValue(JsQuote(s) + [Apostrophe] + rest) == Some((s, |JsQuote(s)| + 1))
  {
    if s == [] {
      assert JsQuote(s) + [Apostrophe] + rest == [Apostrophe] + rest;
    } else {
      var q, quoted := QuotedChar(s[0]), JsQuote(s[1..]);
      var tail := quoted + [Apostrophe] + rest;
      assert JsQuote(s) + [Apostrophe] + rest == q + tail && |JsQuote(s)| == |q| + |quoted| by {
        assert JsQuote(s) == q + quoted;
      }
      assert s == [s[0]] + s[1..];
      LiteralOfQuoted(s[1..], rest);
      QuotedCharStep(s[0], tail, s[1..], |quoted| + 1);
      assert LiteralValue(q + tail) == Some((s, |JsQuote(s)| + 1));
    }
  }
}
