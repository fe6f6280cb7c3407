/** Small text tools shared by the worksheet printer and parser. */
module Text {
  import opened Prelude

  /** White space as `str.isspace` and the pattern `\s` have it. */
  predicate IsSpace(c: char) {
    || '\t' <= c <= '\r' || '\U{1C}' <= c <= ' ' || c == '\U{85}' || c == '\U{A0}' || c == '\U{1680}'
    || '\U{2000}' <= c <= '\U{200A}' || c == '\U{2028}' || c == '\U{2029}' || c == '\U{202F}' || c == '\U{205F}'
        || c == '\U{3000}'
  }
  predicate IsDigit(c: char) { '0' <= c <= '9' }

  function SkipSpaces(s: string): string {
    if s != "" && IsSpace(s[0]) then SkipSpaces(s[1..]) else s
  }

  function TrimEnd(s: string): string {
    if s != "" && IsSpace(s[|s| - 1]) then TrimEnd(s[..|s| - 1]) else s
  }

  /** `str.strip`. */
  function Strip(s: string): string { TrimEnd(SkipSpaces(s)) }

  /** `part` occurs somewhere in `s`. */
  predicate Occurs(part: string, s: string) {
    part <= s || (s != "" && Occurs(part, s[1..]))
  }

  lemma {:induction false} OccursAt(part: string, s: string)
    ensures Occurs(part, s) <==> exists p :: 0 <= p <= |s| && part <= s[p..]
  {
    if s == "" {
      assert Occurs(part, s) ==> part <= s[0..];
    } else {
      OccursAt(part, s[1..]);
      if part <= s {
        assert part <= s[0..];
      }
      if p :| 0 <= p <= |s[1..]| && part <= s[1..][p..] {
        assert s[1..][p..] == s[p + 1..];
        assert part <= s[p + 1..];
      }
      if p :| 0 < p <= |s| && part <= s[p..] {
        assert s[1..][p - 1..] == s[p..];
      }
    }
  }

  /** A text without the separator that occurs in `a` + separator + `b` occurs in one of the two. */
  lemma OccursOnOneSide(part: string, a: string, sep: char, b: string)
    requires part != "" && sep !in part && Occurs(part, a + [sep] + b)
    ensures Occurs(part, a) || Occurs(part, b)
  {
    var s := a + [sep] + b;
    OccursAt(part, s);
    var p :| 0 <= p <= |s| && part <= s[p..];
    var q := p + |part|;
    forall k | p <= k < q ensures s[k] != sep {
      assert s[k] == part[k - p];
    }
    assert s[|a|] == sep;
    if q <= |a| {
      assert s[p..q] == a[p..q];
      assert part <= a[p..];
      OccursAt(part, a);
    } else {
      var d := p - |a| - 1;
      assert s[p..] == b[d..];
      OccursAt(part, b);
    }
  }

  lemma {:induction false} TooShort(part: string, s: string)
    requires |s| < |part|
    ensures !Occurs(part, s)
  {
    if s != "" {
      TooShort(part, s[1..]);
    }
  }

  // ---------------------------------------------------------------------------------------
  // Lines
  // ---------------------------------------------------------------------------------------

  predicate SingleLine(s: string) { '\n' !in s && '\r' !in s }

  /** `"\n".join`. */
  function Join(lines: seq<string>): string {
    if lines == [] then ""
    else if |lines| == 1 then lines[0]
    else lines[0] + "\n" + Join(lines[1..])
  }

  /** `text.split(sep)` for a one-character separator. */
  function Split(text: string, sep: char): (parts: seq<string>)
    ensures parts != []
  {
    if text == "" then [""]
    else
      var rest := Split(text[1..], sep);
      if text[0] == sep then [""] + rest else [[text[0]] + rest[0]] + rest[1..]
  }

  lemma {:induction false} SplitAppend(a: string, sep: char, b: string)
    ensures Split(a + [sep] + b, sep) == Split(a, sep) + Split(b, sep)
  {
    if a == "" {
      assert (a + [sep] + b)[1..] == b;
    } else {
      assert (a + [sep] + b)[1..] == a[1..] + [sep] + b;
      SplitAppend(a[1..], sep, b);
    }
  }

  lemma {:induction false} SplitWhole(a: string, sep: char)
    requires sep !in a
    ensures Split(a, sep) == [a]
  {
    if a != "" {
      SplitWhole(a[1..], sep);
      assert [a[0]] + a[1..] == a;
    }
  }

  /** The universal newlines of a text read: a carriage return, alone or before a line feed, becomes a line feed. */
  function Newlines(text: string): string {
    if text == "" then ""
    else if text[0] != '\r' then [text[0]] + Newlines(text[1..])
    else "\n" + Newlines(AfterReturn(text))
  }

  function AfterReturn(text: string): (rest: string)
    requires text != ""
    ensures |rest| < |text|
  {
    if |text| > 1 && text[1] == '\n' then text[2..] else text[1..]
  }

  /** The lines of a text as `read_text` gives them. */
  function Lines(text: string): (lines: seq<string>)
    ensures lines != []
  {
    Split(Newlines(text), '\n')
  }

  /** Texts can be read apart unless a line break stands between them. */
  predicate Apart(a: string, b: string) {
    a == "" || a[|a| - 1] != '\r' || b == "" || b[0] != '\n'
  }

  lemma AfterReturnAppend(a: string, b: string)
    requires a != "" && a[0] == '\r' && Apart(a, b)
    ensures AfterReturn(a + b) == AfterReturn(a) + b && Apart(AfterReturn(a), b)
  {
    if |a| > 1 {
      assert (a + b)[1] == a[1];
    } else if b != "" {
      assert (a + b)[1] == b[0];
    }
  }

  lemma {:induction false} NewlinesAppend(a: string, b: string)
    requires Apart(a, b)
    ensures Newlines(a + b) == Newlines(a) + Newlines(b)
  {
    if a == "" {
      assert a + b == b;
    } else if a[0] != '\r' {
      assert (a + b)[1..] == a[1..] + b;
      NewlinesAppend(a[1..], b);
      Associative([a[0]], Newlines(a[1..]), Newlines(b));
    } else {
      AfterReturnAppend(a, b);
      NewlinesAppend(AfterReturn(a), b);
      Associative("\n", Newlines(AfterReturn(a)), Newlines(b));
    }
  }

  lemma {:induction false} NoReturns(a: string)
    requires '\r' !in a
    ensures Newlines(a) == a
  {
    if a != "" {
      NoReturns(a[1..]);
      assert a == [a[0]] + a[1..];
    }
  }

  /** A line before a line feed: a carriage return at its end is part of the line break. */
  function Ended(line: string): string {
    if line != "" && line[|line| - 1] == '\r' then line[..|line| - 1] else line
  }

  /** What reading makes of joined lines, line by line. */
  function ReadBack(lines: seq<string>): seq<string> {
    if lines == [] then [] else Lines(Ended(lines[0])) + ReadBack(lines[1..])
  }

  /** A line and what is joined after it are read apart. */
  lemma LinesApart(first: string, rest: string)
    ensures Lines(first + "\n" + rest) == Lines(Ended(first)) + Lines(rest)
  {
    var line := Ended(first);
    var end := first[|line|..] + ("\n" + rest);
    assert first + "\n" + rest == line + end;
    NewlinesAppend(line, end);
    LineBreakReads(first[|line|..], rest);
    assert Newlines(line) + ("\n" + Newlines(rest)) == Newlines(line) + ['\n'] + Newlines(rest);
    SplitAppend(Newlines(line), '\n', Newlines(rest));
  }

  lemma LineBreakReads(mark: string, rest: string)
    requires mark == "" || mark == "\r"
    ensures Newlines(mark + ("\n" + rest)) == "\n" + Newlines(rest)
  {
    var text := mark + ("\n" + rest);
    if mark == "" {
      assert text[1..] == rest;
    } else {
      assert text[1] == '\n' && text[2..] == rest;
    }
  }

  /** Reading joined lines reads each of them. */
  lemma {:induction false} LinesOfJoin(lines: seq<string>)
    requires lines != [] && SingleLine(lines[|lines| - 1])
    ensures Lines(Join(lines)) == ReadBack(lines)
  {
    if |lines| > 1 {
      LinesOfJoin(lines[1..]);
      LinesApart(lines[0], Join(lines[1..]));
    } else {
      assert ReadBack(lines[1..]) == [];
    }
  }

  lemma {:induction false} ReadBackAppend(a: seq<string>, b: seq<string>)
    ensures ReadBack(a + b) == ReadBack(a) + ReadBack(b)
  {
    if a == [] {
      assert a + b == b;
    } else {
      assert (a + b)[1..] == a[1..] + b;
      ReadBackAppend(a[1..], b);
    }
  }

  lemma LineReadsBack(line: string)
    requires SingleLine(line)
    ensures Lines(line) == [line]
  {
    NoReturns(line);
    SplitWhole(line, '\n');
  }

  lemma {:induction false} SingleLinesReadBack(lines: seq<string>)
    requires forall l | l in lines :: SingleLine(l)
    ensures ReadBack(lines) == lines
  {
    if lines != [] {
      assert lines[0] in lines;
      LineReadsBack(lines[0]);
      SingleLinesReadBack(lines[1..]);
      assert lines == [lines[0]] + lines[1..];
    }
  }

  // ---------------------------------------------------------------------------------------
  // Numbers
  // ---------------------------------------------------------------------------------------

  function DigitChar(d: nat): char
    requires d < 10
  {
    '0' + d as char
  }

  function DigitValue(c: char): nat
    requires IsDigit(c)
  {
    (c as int) - ('0' as int)
  }

  predicate AllDigits(s: string) { forall c | c in s :: IsDigit(c) }

  function NatText(n: nat): (s: string)
    ensures s != "" && AllDigits(s)
  {
    if n < 10 then [DigitChar(n)] else NatText(n / 10) + [DigitChar(n % 10)]
  }

  function NatValue(s: string): nat
    requires AllDigits(s)
  {
    if s == "" then 0 else NatValue(s[..|s| - 1]) * 10 + DigitValue(s[|s| - 1])
  }

  /** Reading a printed number gives it back. */
  lemma {:induction false} NatRoundTrip(n: nat)
    ensures NatValue(NatText(n)) == n
  {
    if n < 10 {
      assert NatText(n)[..0] == "";
    } else {
      NatRoundTrip(n / 10);
      var s := NatText(n);
      assert s[..|s| - 1] == NatText(n / 10);
    }
  }

  /** A digit, or also a dot where dots are allowed. */
  predicate Numeric(c: char, dots: bool) { IsDigit(c) || (dots && c == '.') }

  /** The longest numeric prefix. */
  function TakeNumeric(s: string, dots: bool): (r: string)
    ensures r <= s
    ensures !dots ==> AllDigits(r)
  {
    if s != "" && Numeric(s[0], dots) then [s[0]] + TakeNumeric(s[1..], dots) else ""
  }

  lemma {:induction false} TakeNumericStops(s: string, rest: string, dots: bool)
    requires forall c | c in s :: Numeric(c, dots)
    requires rest != "" ==> !Numeric(rest[0], dots)
    ensures TakeNumeric(s + rest, dots) == s
  {
    if s == "" {
      assert s + rest == rest;
    } else {
      assert (s + rest)[1..] == s[1..] + rest;
      TakeNumericStops(s[1..], rest, dots);
    }
  }

  function Pow10(n: nat): (r: nat)
    ensures r > 0
  {
    if n == 0 then 1 else 10 * Pow10(n - 1)
  }

  /** `float` on a text of digits and dots; None where it raises. */
  function FloatValue(s: string): Option<real> {
    var whole := TakeNumeric(s, false);
    var rest := s[|whole|..];
    if rest == "" then (if whole == "" then None else Some(NatValue(whole) as real))
    else if rest[0] != '.' || !AllDigits(rest[1..]) || (whole == "" && rest == ".") then None
    else Some(PlusFraction(NatValue(whole), rest[1..]))
  }

  /** A whole number plus a decimal fraction. */
  function PlusFraction(whole: nat, frac: string): real
    requires AllDigits(frac)
  {
    whole as real + NatValue(frac) as real / Pow10(|frac|) as real
  }

  /** The nearest whole number of hundredths, the even one of two. */
  function Hundredths(x: real): nat
    requires x >= 0.0
  {
    var below := (x * 100.0).Floor;
    var part := x * 100.0 - below as real;
    if part < 0.5 || (part == 0.5 && below % 2 == 0) then below else below + 1
  }

  /** `f"{x:.2f}"` of a non-negative number. */
  function TwoDecimals(x: real): string
    requires x >= 0.0
  {
    var h := Hundredths(x);
    NatText(h / 100) + "." + [DigitChar(h % 100 / 10), DigitChar(h % 10)]
  }

  lemma TwoDigits(a: nat, b: nat)
    requires a < 10 && b < 10
    ensures NatValue([DigitChar(a), DigitChar(b)]) == 10 * a + b
  {
    var s := [DigitChar(a), DigitChar(b)];
    assert s[..1] == [DigitChar(a)];
    assert s[..1][..0] == "";
    assert NatValue(s[..1]) == a;
  }

  lemma FloatOfParts(whole: string, frac: string)
    requires whole != "" && AllDigits(whole) && AllDigits(frac)
    ensures FloatValue(whole + "." + frac) == Some(PlusFraction(NatValue(whole), frac))
  {
    var rest := "." + frac;
    assert whole + "." + frac == whole + rest;
    TakeNumericStops(whole, rest, false);
    assert (whole + rest)[|whole|..] == rest && rest[1..] == frac;
  }

  /** The printed value is within half a hundredth. */
  lemma HundredthsClose(x: real)
    requires x >= 0.0
    ensures -0.005 <= Hundredths(x) as real / 100.0 - x <= 0.005
  {
  }

  /** Reading a printed two-decimal number gives the nearest hundredth. */
  lemma TwoDecimalsRoundTrip(x: real)
    requires x >= 0.0
    ensures FloatValue(TwoDecimals(x)) == Some(Hundredths(x) as real / 100.0)
  {
    var h := Hundredths(x);
    var frac := [DigitChar(h % 100 / 10), DigitChar(h % 10)];
    FloatOfParts(NatText(h / 100), frac);
    NatRoundTrip(h / 100);
    FractionOfTwoDigits(h / 100, h % 100 / 10, h % 10);
    SplitHundredths(h);
  }

  lemma FractionOfTwoDigits(whole: nat, a: nat, b: nat)
    requires a < 10 && b < 10
    ensures PlusFraction(whole, [DigitChar(a), DigitChar(b)]) == whole as real + (10 * a + b) as real / 100.0
  {
    TwoDigits(a, b);
    assert Pow10(2) == 10 * Pow10(1) == 100;
  }

  lemma SplitHundredths(h: nat)
    ensures (h / 100) as real + (10 * (h % 100 / 10) + h % 10) as real / 100.0 == h as real / 100.0
  {
    var q, r := h / 100, h % 100;
    assert h % 10 == r % 10 by { LastDigit(h); }
    assert 10 * (r / 10) + r % 10 == r;
    assert h == 100 * q + r;
    assert h as real == 100.0 * q as real + r as real;
  }

  lemma LastDigit(h: nat)
    ensures h % 10 == h % 100 % 10
  {
    var q, r := h / 100, h % 100;
    assert h == 10 * (10 * q + r / 10) + r % 10;
  }
}
