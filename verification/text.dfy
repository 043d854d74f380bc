/**
 Strings: the decimal rendering of `{}` and `{:0>N}` in Rust's `format!`,
 `join`/`split` on a separator character, and Rust's notion of whitespace.
 Each rendering comes with the decoder that undoes it.
 */
module Text {
  import opened Seqs

  predicate IsDigit(c: char) {
    '0' <= c <= '9'
  }

  predicate AllDigits(s: string) {
    forall i :: 0 <= i < |s| ==> IsDigit(s[i])
  }

  function DigitChar(d: nat): (c: char)
    requires d < 10
    ensures IsDigit(c)
    ensures c as int - '0' as int == d
  {
    (48 + d) as char
  }

  function DigitValue(c: char): (d: nat)
    requires IsDigit(c)
    ensures d < 10
    ensures DigitChar(d) == c
  {
    c as int - '0' as int
  }

  /** `format!("{}", n)` for an unsigned integer: decimal, no leading zero. */
  function NatToString(n: nat): (s: string)
    ensures 1 <= |s|
    ensures AllDigits(s)
    ensures s[0] == '0' <==> n == 0
    ensures n < 10 <==> |s| == 1
  {
    if n < 10 then [DigitChar(n)]
    else NatToString(n / 10) + [DigitChar(n % 10)]
  }

  /** The number a string of decimal digits denotes (leading zeros allowed). */
  function DecimalValue(s: string): nat
    requires AllDigits(s)
  {
    if |s| == 0 then 0
    else DecimalValue(s[..|s| - 1]) * 10 + DigitValue(s[|s| - 1])
  }

  lemma {:induction false} NatToStringRoundTrip(n: nat)
    ensures DecimalValue(NatToString(n)) == n
  {
    var s := NatToString(n);
    if n < 10 {
      assert s[..|s| - 1] == [];
    } else {
      assert s[..|s| - 1] == NatToString(n / 10);
      NatToStringRoundTrip(n / 10);
    }
  }

  lemma {:induction false} DecimalValueLeadingZero(s: string)
    requires AllDigits(s)
    ensures AllDigits("0" + s)
    ensures DecimalValue("0" + s) == DecimalValue(s)
  {
    var t := "0" + s;
    if |s| == 0 {
      assert t[..|t| - 1] == [];
    } else {
      assert t[..|t| - 1] == "0" + s[..|s| - 1];
      DecimalValueLeadingZero(s[..|s| - 1]);
    }
  }

  /** `n` copies of `c`. */
  function Repeat(c: char, n: nat): (r: string)
    ensures |r| == n
    ensures forall i :: 0 <= i < n ==> r[i] == c
  {
    if n == 0 then "" else [c] + Repeat(c, n - 1)
  }

  /** `format!("{:0>w}", s)`-style padding: `fill` on the left up to width `w`. */
  function PadLeft(s: string, w: nat, fill: char): (r: string)
    ensures |s| >= w ==> r == s
    ensures |s| < w ==> |r| == w
    ensures |r| >= |s| && r[|r| - |s|..] == s
    ensures forall i :: 0 <= i < |r| - |s| ==> r[i] == fill
  {
    if |s| >= w then s
    else
      var pad := Repeat(fill, w - |s|);
      assert (pad + s)[|pad|..] == s;
      pad + s
  }

  /** `format!("{:0>2}", n)`. */
  function Pad2(n: nat): (s: string)
    ensures AllDigits(s)
    ensures DecimalValue(s) == n
    ensures n < 100 ==> |s| == 2
  {
    var d := NatToString(n);
    NatToStringRoundTrip(n);
    if |d| >= 2 then d
    else
      assert PadLeft(d, 2, '0') == "0" + d;
      DecimalValueLeadingZero(d);
      PadLeft(d, 2, '0')
  }

  /** `parts.join(sep)`. */
  function Join(parts: seq<string>, sep: char): string
  {
    if |parts| == 0 then ""
    else if |parts| == 1 then parts[0]
    else parts[0] + [sep] + Join(parts[1..], sep)
  }

  /** A character found in no part and different from the separator is not in the join. */
  lemma {:induction false} JoinAvoids(parts: seq<string>, sep: char, c: char)
    requires c != sep
    requires forall i :: 0 <= i < |parts| ==> c !in parts[i]
    ensures c !in Join(parts, sep)
  {
    if |parts| > 1 {
      JoinAvoids(parts[1..], sep, c);
    }
  }

  lemma DigitsAvoid(s: string, c: char)
    requires AllDigits(s) && !IsDigit(c)
    ensures c !in s
  {
  }

  /** `s.split(sep).collect()`: never empty; the pieces hold no `sep`. */
  function SplitOn(s: string, sep: char): (parts: seq<string>)
    ensures 1 <= |parts|
    ensures forall i :: 0 <= i < |parts| ==> sep !in parts[i]
  {
    if |s| == 0 then [""]
    else
      var rest := SplitOn(s[1..], sep);
      if s[0] == sep then [""] + rest
      else [[s[0]] + rest[0]] + rest[1..]
  }

  lemma {:induction false} SplitOnNoSep(a: string, sep: char)
    requires sep !in a
    ensures SplitOn(a, sep) == [a]
  {
    if |a| > 0 {
      SplitOnNoSep(a[1..], sep);
      assert [a[0]] + a[1..] == a;
    }
  }

  lemma {:induction false} SplitOnSepAfter(a: string, b: string, sep: char)
    requires sep !in a
    ensures SplitOn(a + [sep] + b, sep) == [a] + SplitOn(b, sep)
  {
    var s := a + [sep] + b;
    if |a| == 0 {
      assert s[1..] == b;
    } else {
      assert s[1..] == a[1..] + [sep] + b;
      SplitOnSepAfter(a[1..], b, sep);
      assert [a[0]] + a[1..] == a;
    }
  }

  /** Splitting a join gives the parts back, when no part holds the separator. */
  lemma {:induction false} SplitJoinRoundTrip(parts: seq<string>, sep: char)
    requires 1 <= |parts|
    requires forall i :: 0 <= i < |parts| ==> sep !in parts[i]
    ensures SplitOn(Join(parts, sep), sep) == parts
  {
    if |parts| == 1 {
      SplitOnNoSep(parts[0], sep);
    } else {
      SplitOnSepAfter(parts[0], Join(parts[1..], sep), sep);
      SplitJoinRoundTrip(parts[1..], sep);
      assert [parts[0]] + parts[1..] == parts;
    }
  }

  /** Joining a split gives the string back. */
  lemma {:induction false} JoinSplitRoundTrip(s: string, sep: char)
    ensures Join(SplitOn(s, sep), sep) == s
  {
    if |s| > 0 {
      var rest := SplitOn(s[1..], sep);
      JoinSplitRoundTrip(s[1..], sep);
      if s[0] == sep {
        assert ([""] + rest)[1..] == rest;
        assert s == [sep] + s[1..];
      } else {
        var parts := [[s[0]] + rest[0]] + rest[1..];
        if |rest| == 1 {
          assert s == [s[0]] + s[1..];
        } else {
          assert parts[1..] == rest[1..];
          assert s == [s[0]] + s[1..];
        }
      }
    }
  }

  /** Rust's `char::is_whitespace`: the Unicode White_Space property. */
  predicate IsWhitespace(c: char) {
    || ('\U{0009}' <= c <= '\U{000D}')
    || c == ' '
    || c == '\U{0085}'
    || c == '\U{00A0}'
    || c == '\U{1680}'
    || ('\U{2000}' <= c <= '\U{200A}')
    || c == '\U{2028}'
    || c == '\U{2029}'
    || c == '\U{202F}'
    || c == '\U{205F}'
    || c == '\U{3000}'
  }

  /**
   The characters `{:?}` writes as a backslash escape: the backslash, NUL,
   tab, line feed, carriage return, and the quote that encloses the text
   (`"` for a string, `'` for a character).
   */
  predicate DebugEscaped(c: char, quote: char) {
    c == quote || c == '\\' || c == '\0' || c == '\t' || c == '\n' || c == '\r'
  }

  /** `{:?}` encloses a string in `"` and a character in `'`. */
  predicate IsQuote(q: char) {
    q == '"' || q == '\''
  }

  /** The letter after the backslash. */
  function EscapeCode(c: char): char {
    if c == '\0' then '0' else if c == '\t' then 't' else if c == '\n' then 'n' else if c == '\r' then 'r' else c
  }

  /** The character a backslash escape stands for. */
  function UnescapeCode(e: char): char {
    if e == '0' then '\0' else if e == 't' then '\t' else if e == 'n' then '\n' else if e == 'r' then '\r' else e
  }

  /** One character as `{:?}` writes it inside `quote`s. */
  function EscapeDebug(c: char, quote: char): (r: string)
    requires IsQuote(quote)
    ensures |r| == 1 <==> !DebugEscaped(c, quote)
    ensures |r| == 1 ==> r == [c]
    ensures |r| != 1 ==> |r| == 2 && r[0] == '\\' && UnescapeCode(r[1]) == c
  {
    if DebugEscaped(c, quote) then ['\\', EscapeCode(c)] else [c]
  }

  function EscapeDebugAll(s: string, quote: char): (r: string)
    requires IsQuote(quote)
    ensures |s| <= |r|
  {
    if |s| == 0 then "" else EscapeDebug(s[0], quote) + EscapeDebugAll(s[1..], quote)
  }

  /** Reads backslash escapes back. */
  function UnescapeDebug(t: string): string
  {
    if |t| == 0 then ""
    else if t[0] == '\\' && |t| >= 2 then [UnescapeCode(t[1])] + UnescapeDebug(t[2..])
    else [t[0]] + UnescapeDebug(t[1..])
  }

  /**
   `format!("{:?}", s)` for a string: in double quotes, with the escapes
   above. Rust also writes `\u{..}` for unprintable characters; those are
   not modelled.
   */
  function DebugStr(s: string): (r: string)
    ensures |r| >= |s| + 2 && r[0] == '"' && r[|r| - 1] == '"'
  {
    "\"" + EscapeDebugAll(s, '"') + "\""
  }

  /** `format!("{:?}", c)` for a character: in single quotes. */
  function DebugChar(c: char): (r: string)
    ensures 3 <= |r| <= 4 && r[0] == '\'' && r[|r| - 1] == '\''
  {
    "'" + EscapeDebug(c, '\'') + "'"
  }

  /** The escapes lose nothing: reading them back gives the text. */
  lemma {:induction false} EscapeDebugRoundTrip(s: string, quote: char)
    requires IsQuote(quote)
    ensures UnescapeDebug(EscapeDebugAll(s, quote)) == s
  {
    if |s| > 0 {
      var e := EscapeDebug(s[0], quote);
      var rest := EscapeDebugAll(s[1..], quote);
      var t := e + rest;
      EscapeDebugRoundTrip(s[1..], quote);
      if |e| == 2 {
        assert t[0] == '\\' && t[2..] == rest;
      } else {
        assert t[0] == s[0] != '\\' && t[1..] == rest;
      }
      assert UnescapeDebug(t) == [s[0]] + s[1..];
    }
  }

  /** Text without any escaped character is only put in quotes. */
  lemma {:induction false} DebugStrPlain(s: string)
    requires forall i :: 0 <= i < |s| ==> !DebugEscaped(s[i], '"')
    ensures DebugStr(s) == "\"" + s + "\""
  {
    PlainUnescaped(s, '"');
  }

  lemma {:induction false} PlainUnescaped(s: string, quote: char)
    requires IsQuote(quote)
    requires forall i :: 0 <= i < |s| ==> !DebugEscaped(s[i], quote)
    ensures EscapeDebugAll(s, quote) == s
  {
    if |s| > 0 {
      PlainUnescaped(s[1..], quote);
      assert [s[0]] + s[1..] == s;
    }
  }
}
