/** The few JavaScript string primitives the core relies on, written out:
    `toLowerCase` (ASCII letters), `includes`, `Array.prototype.join`,
    `trim` and `String(n)` for integers. */
module Strings {

  predicate IsUpper(c: char) {
    'A' <= c <= 'Z'
  }

  /** Lower-cases one ASCII letter; every other character is kept. */
  function LowerChar(c: char): (r: char)
    ensures !IsUpper(r)
    ensures IsUpper(c) ==> r as int == c as int + 32
    ensures !IsUpper(c) ==> r == c
  {
    if IsUpper(c) then (c as int + 32) as char else c
  }

  /** `s.toLowerCase()`, restricted to the ASCII letters. */
  function ToLower(s: string): (r: string)
    ensures |r| == |s|
    ensures forall i :: 0 <= i < |s| ==> r[i] == LowerChar(s[i])
  {
    if s == [] then [] else [LowerChar(s[0])] + ToLower(s[1..])
  }

  /** No upper-case ASCII letter occurs in `s`. */
  predicate IsLower(s: string) {
    forall i :: 0 <= i < |s| ==> !IsUpper(s[i])
  }

  /** Lower-casing yields a lower-case string, and lower-case strings are
      left unchanged, so lower-casing twice is lower-casing once. */
  lemma ToLowerIdempotent(s: string)
    ensures IsLower(ToLower(s))
    ensures ToLower(ToLower(s)) == ToLower(s)
  {
    LowerCaseFixed(ToLower(s));
  }

  lemma LowerCaseFixed(s: string)
    requires IsLower(s)
    ensures ToLower(s) == s
  {
    assert forall i :: 0 <= i < |s| ==> ToLower(s)[i] == s[i];
  }

  /** `haystack.includes(needle)` */
  predicate Contains(haystack: string, needle: string)
    decreases |haystack|
  {
    |needle| <= |haystack| && (haystack[..|needle|] == needle || Contains(haystack[1..], needle))
  }

  /** `xs.join(sep)` */
  function Join(xs: seq<string>, sep: string): string {
    if xs == [] then ""
    else if |xs| == 1 then xs[0]
    else xs[0] + sep + Join(xs[1..], sep)
  }

  lemma {:induction false} JoinSnoc(xs: seq<string>, x: string, sep: string)
    requires xs != []
    ensures Join(xs + [x], sep) == Join(xs, sep) + sep + x
  {
    if |xs| == 1 {
      assert xs + [x] == [xs[0], x];
    } else {
      assert (xs + [x])[1..] == xs[1..] + [x];
      JoinSnoc(xs[1..], x, sep);
    }
  }

  /** `s.split('\n')`: the lines of `s`; a text without line breaks is one
      line, and a final line break leaves an empty last line. */
  function SplitLines(s: string): (r: seq<string>)
    ensures |r| >= 1
  {
    if s == [] then [""]
    else
      var rest := SplitLines(s[1..]);
      if s[0] == '\n' then [""] + rest else [[s[0]] + rest[0]] + rest[1..]
  }

  /** A line break between two texts separates their lines. */
  lemma {:induction false} SplitLinesConcat(a: string, b: string)
    ensures SplitLines(a + "\n" + b) == SplitLines(a) + SplitLines(b)
  {
    if a == [] {
      assert a + "\n" + b == "\n" + b;
      assert ("\n" + b)[1..] == b;
    } else {
      assert (a + "\n" + b)[1..] == a[1..] + "\n" + b;
      SplitLinesConcat(a[1..], b);
    }
  }

  /** Text in front of the first line break extends the first line. */
  lemma {:induction false} SplitLinesPrefix(p: string, s: string)
    requires '\n' !in p
    ensures SplitLines(p + s) == [p + SplitLines(s)[0]] + SplitLines(s)[1..]
  {
    if p != [] {
      var lines := SplitLines(s);
      var rest := SplitLines(p[1..] + s);
      assert rest[0] == p[1..] + lines[0] && rest[1..] == lines[1..] by {
        assert p == [p[0]] + p[1..];
        SplitLinesPrefix(p[1..], s);
      }
      assert SplitLines(p + s) == [[p[0]] + rest[0]] + rest[1..] by {
        assert p[0] in p && (p + s)[0] == p[0];
        assert (p + s)[1..] == p[1..] + s;
      }
      assert [p[0]] + (p[1..] + lines[0]) == p + lines[0];
    } else {
      var lines := SplitLines(s);
      assert p + s == s && p + lines[0] == lines[0];
      assert [lines[0]] + lines[1..] == lines;
    }
  }

  /** A text without line breaks is a single line. */
  lemma SplitLinesSingle(s: string)
    requires '\n' !in s
    ensures SplitLines(s) == [s]
  {
    SplitLinesPrefix(s, "");
    assert s + "" == s;
  }

  /** Regrouping a list of lines. */
  lemma LinesRegrouped(a: string, b: string, c: string, rest: seq<string>)
    ensures [a, b] + ([c] + rest) == [a, b, c] + rest
  {
    assert [a, b] + ([c] + rest) == [a, b] + [c] + rest;
  }

  /** Three one-line pieces are three lines. */
  lemma LinesJoined(a: string, b: string, c: string)
    ensures [a] + [b] + [c] == [a, b, c]
  {
    assert ([a] + [b] + [c])[2] == c;
  }

  /** A line break, a line, and another line break: an empty first line,
      that line, and the lines of what follows. */
  lemma SplitLeadingLine(line: string, rest: string)
    requires '\n' !in line
    ensures SplitLines("\n" + line + "\n" + rest) == ["", line] + SplitLines(rest)
  {
    assert "\n" + line + "\n" + rest == "" + "\n" + (line + "\n" + rest);
    SplitLinesConcat("", line + "\n" + rest);
    SplitLinesConcat(line, rest);
    SplitLinesSingle(line);
  }

  /** An opening and a closing line around a text. */
  lemma SplitFramed(opening: string, middle: string, closing: string)
    requires '\n' !in opening && '\n' !in closing
    ensures SplitLines(opening + "\n" + middle + "\n" + closing) == [opening] + SplitLines(middle) + [closing]
  {
    assert opening + "\n" + middle + "\n" + closing == opening + "\n" + (middle + "\n" + closing);
    SplitLinesConcat(opening, middle + "\n" + closing);
    SplitLinesConcat(middle, closing);
    SplitLinesSingle(opening);
    SplitLinesSingle(closing);
  }

  /** A text, an empty line, a last line, and a final line break. */
  lemma SplitThenLastLine(text: string, last: string)
    requires '\n' !in last
    ensures SplitLines(text + "\n\n" + last + "\n") == SplitLines(text) + ["", last, ""]
  {
    assert text + "\n\n" + last + "\n" == text + "\n" + ("" + "\n" + (last + "\n" + ""));
    SplitLinesConcat(text, "" + "\n" + (last + "\n" + ""));
    SplitLinesConcat("", last + "\n" + "");
    SplitLinesConcat(last, "");
    SplitLinesSingle(last);
  }

  /** The lines of each of `xs`, one after the other. */
  function AllLines(xs: seq<string>): (r: seq<string>)
    ensures |r| >= |xs|
  {
    if xs == [] then [] else SplitLines(xs[0]) + AllLines(xs[1..])
  }

  /** Joining texts with line breaks puts their lines one after the other. */
  lemma {:induction false} SplitJoinedBlocks(xs: seq<string>)
    requires xs != []
    ensures SplitLines(Join(xs, "\n")) == AllLines(xs)
  {
    if |xs| == 1 {
      assert xs[1..] == [];
      assert AllLines(xs) == SplitLines(xs[0]) + [];
    } else {
      SplitLinesConcat(xs[0], Join(xs[1..], "\n"));
      SplitJoinedBlocks(xs[1..]);
    }
  }

  /** `p` in front of each of `xs`, in order. */
  function Prefixed(p: string, xs: seq<string>): (r: seq<string>)
    ensures |r| == |xs|
    ensures forall i :: 0 <= i < |xs| ==> r[i] == p + xs[i]
  {
    if xs == [] then [] else [p + xs[0]] + Prefixed(p, xs[1..])
  }

  /** Joining lines with a line break followed by `p` and splitting again
      gives the first line, then the others each after `p`; with `p` empty,
      splitting undoes joining. */
  lemma {:induction false} SplitJoined(xs: seq<string>, p: string)
    requires xs != []
    requires '\n' !in p && forall i :: 0 <= i < |xs| ==> '\n' !in xs[i]
    ensures SplitLines(Join(xs, "\n" + p)) == [xs[0]] + Prefixed(p, xs[1..])
  {
    if |xs| == 1 {
      SplitLinesSingle(xs[0]);
    } else {
      var rest := Join(xs[1..], "\n" + p);
      assert Join(xs, "\n" + p) == xs[0] + "\n" + (p + rest);
      SplitLinesConcat(xs[0], p + rest);
      SplitLinesSingle(xs[0]);
      SplitJoined(xs[1..], p);
      SplitLinesPrefix(p, rest);
      assert xs[1..][1..] == xs[2..];
    }
  }

  /** With nothing after the line breaks, splitting undoes joining. */
  lemma SplitJoinedLines(xs: seq<string>)
    requires xs != []
    requires forall i :: 0 <= i < |xs| ==> '\n' !in xs[i]
    ensures SplitLines(Join(xs, "\n")) == xs
  {
    var sep: string := "\n" + "";
    assert sep == "\n";
    SplitJoined(xs, "");
    PrefixedNothing(xs[1..]);
  }

  lemma {:induction false} PrefixedNothing(xs: seq<string>)
    ensures Prefixed("", xs) == xs
  {
    if xs != [] {
      PrefixedNothing(xs[1..]);
      assert "" + xs[0] == xs[0];
    }
  }

  /** The characters `String.prototype.trim` removes: the ECMAScript
      WhiteSpace and LineTerminator code points. */
  predicate IsJsWhitespace(c: char) {
    c == '\t' || c == '\n' || c == '\U{B}' || c == '\U{C}' || c == '\r' || c == ' '
    || c == '\U{A0}' || c == '\U{1680}' || ('\U{2000}' <= c <= '\U{200A}')
    || c == '\U{2028}' || c == '\U{2029}' || c == '\U{202F}' || c == '\U{205F}'
    || c == '\U{3000}' || c == '\U{FEFF}'
  }

  function TrimStart(s: string): (r: string)
    ensures |r| <= |s| && r == s[|s| - |r|..]
    ensures r != [] ==> !IsJsWhitespace(r[0])
  {
    if s != [] && IsJsWhitespace(s[0]) then TrimStart(s[1..]) else s
  }

  function TrimEnd(s: string): (r: string)
    ensures |r| <= |s| && r == s[..|r|]
    ensures r != [] ==> !IsJsWhitespace(r[|r| - 1])
  {
    if s != [] && IsJsWhitespace(s[|s| - 1]) then TrimEnd(s[..|s| - 1]) else s
  }

  /** `s.trim()` */
  function Trim(s: string): string {
    TrimEnd(TrimStart(s))
  }

  /** A string that neither starts nor ends with whitespace is its own trim. */
  lemma TrimNoop(s: string)
    requires s != [] && !IsJsWhitespace(s[0]) && !IsJsWhitespace(s[|s| - 1])
    ensures Trim(s) == s
  {
  }

  function DigitChar(d: nat): (c: char)
    requires d < 10
    ensures '0' <= c <= '9'
  {
    ('0' as int + d) as char
  }

  /** Decimal digits of `n`, most significant first, without leading zeros. */
  function NatToString(n: nat): (r: string)
    ensures r != []
    ensures forall i :: 0 <= i < |r| ==> '0' <= r[i] <= '9'
    ensures |r| > 1 ==> r[0] != '0'
  {
    if n < 10 then [DigitChar(n)] else NatToString(n / 10) + [DigitChar(n % 10)]
  }

  /** `String(i)` for an integer-valued number. */
  function IntToString(i: int): string {
    if i < 0 then "-" + NatToString(-i) else NatToString(i)
  }

  /** Reads a string of decimal digits back as a number. */
  function ParseDigits(s: string): nat
    requires forall i :: 0 <= i < |s| ==> '0' <= s[i] <= '9'
  {
    if s == [] then 0 else ParseDigits(s[..|s| - 1]) * 10 + (s[|s| - 1] as int - '0' as int)
  }

  /** Printing a number in decimal loses nothing: reading the digits back
      gives the number. */
  lemma {:induction false} NatToStringRoundTrip(n: nat)
    ensures ParseDigits(NatToString(n)) == n
  {
    if n >= 10 {
      NatToStringRoundTrip(n / 10);
      var s := NatToString(n);
      assert s[..|s| - 1] == NatToString(n / 10);
    }
  }
}
