/** The text operations that the server and the load client share: decimal
    numbers, white-space separated words, and lines that end in CRLF. */
module HttpText {
  import opened Requests

  // ---- Decimal numbers ----

  function Digit(d: nat): char
    requires d < 10
  {
    "0123456789"[d]
  }

  function DigitValue(c: char): (d: nat)
    requires '0' <= c <= '9'
    ensures d < 10
  {
    c as int - '0' as int
  }

  /** printf %lu, and %d of a number that is not negative. */
  function Decimal(n: nat): (s: string)
    ensures s != ""
    ensures forall c :: c in s ==> '0' <= c <= '9'
  {
    if n < 10 then [Digit(n)] else Decimal(n / 10) + [Digit(n % 10)]
  }

  function DecimalOfInt(i: int): string {
    if i < 0 then "-" + Decimal(-i) else Decimal(i)
  }

  function ParseDecimal(s: string): Option<nat> {
    if s == "" then None
    else
      var last := s[|s| - 1];
      if !('0' <= last <= '9') then None
      else if |s| == 1 then Some(DigitValue(last))
      else
        match ParseDecimal(s[..|s| - 1])
        case None => None
        case Some(v) => Some(10 * v + DigitValue(last))
  }

  /** A printed number has no leading zero. */
  lemma {:induction false} DecimalIsPlain(n: nat)
    ensures Decimal(n) != "" && (n > 0 ==> Decimal(n)[0] != '0') && (n == 0 ==> Decimal(n) == "0")
  {
    if n >= 10 {
      DecimalIsPlain(n / 10);
    }
  }

  /** Reading back a printed number. */
  lemma {:induction false} ParseOfDecimal(n: nat)
    ensures ParseDecimal(Decimal(n)) == Some(n)
  {
    if n >= 10 {
      var s := Decimal(n);
      assert s[..|s| - 1] == Decimal(n / 10);
      ParseOfDecimal(n / 10);
    }
  }

  // ---- Words ----

  predicate IsSpace(c: char) {
    c == ' ' || ('\t' <= c <= '\r')
  }

  function SkipSpace(s: string): (t: string)
    ensures |t| <= |s|
    ensures t != "" ==> !IsSpace(t[0])
    ensures s != "" && IsSpace(s[0]) ==> |t| < |s|
  {
    if s != "" && IsSpace(s[0]) then SkipSpace(s[1..]) else s
  }

  function FirstWord(s: string): (w: string)
    ensures |w| <= |s| && w == s[..|w|]
    ensures s != "" && !IsSpace(s[0]) ==> w != ""
    ensures |w| < |s| ==> IsSpace(s[|w|])
  {
    if s == "" || IsSpace(s[0]) then "" else [s[0]] + FirstWord(s[1..])
  }

  /** The white-space separated words of s. */
  function Words(s: string): seq<string>
    decreases |s|
  {
    var t := SkipSpace(s);
    if t == "" then []
    else
      var w := FirstWord(t);
      [w] + Words(t[|w|..])
  }

  /** Two words take up their own length and at least one character between them. */
  lemma TwoWordsTakeRoom(s: string)
    requires |Words(s)| >= 2
    ensures 0 < |Words(s)[0]| && |Words(s)[0]| + 1 + |Words(s)[1]| <= |s|
  {
    var t := SkipSpace(s);
    var w := FirstWord(t);
    var rest := SkipSpace(t[|w|..]);
    assert Words(s)[1..] == Words(t[|w|..]);
    assert Words(s)[1] == FirstWord(rest);
  }

  predicate IsWord(w: string) {
    w != "" && forall c :: c in w ==> !IsSpace(c)
  }

  lemma {:induction false} FirstWordIs(w: string, rest: string)
    requires forall c :: c in w ==> !IsSpace(c)
    requires rest == "" || IsSpace(rest[0])
    ensures FirstWord(w + rest) == w
  {
    if w == "" {
      assert w + rest == rest;
    } else {
      assert (w + rest)[1..] == w[1..] + rest;
      FirstWordIs(w[1..], rest);
    }
  }

  /** A word, a space and more text. */
  lemma WordsOfText(w: string, rest: string)
    requires IsWord(w) && rest != "" && IsSpace(rest[0])
    ensures Words(w + rest) == [w] + Words(rest)
    ensures Words(rest) == Words(rest[1..])
  {
    FirstWordIs(w, rest);
    var t := w + rest;
    assert t[0] == w[0] && w[0] in w;
    assert SkipSpace(t) == t;
    assert t[|w|..] == rest;
  }

  function Lower(c: char): char {
    if 'A' <= c <= 'Z' then (c as int + 32) as char else c
  }

  /** strcasecmp(a, b) == 0. */
  predicate EqualIgnoringCase(a: string, b: string) {
    |a| == |b| && forall i :: 0 <= i < |a| ==> Lower(a[i]) == Lower(b[i])
  }

  lemma GetSpellings(m: string)
    ensures EqualIgnoringCase(m, "GET") <==>
            |m| == 3 && m[0] in {'g', 'G'} && m[1] in {'e', 'E'} && m[2] in {'t', 'T'}
  {
    assert Lower('G') == 'g' && Lower('E') == 'e' && Lower('T') == 't';
    if |m| == 3 {
      LowerIs(m[0], 'g', 'G');
      LowerIs(m[1], 'e', 'E');
      LowerIs(m[2], 't', 'T');
    }
  }

  lemma LowerIs(c: char, small: char, capital: char)
    requires 'a' <= small <= 'z' && capital as int + 32 == small as int
    ensures Lower(c) == small <==> c == small || c == capital
  {
  }

  /** The characters that isspace accepts: space, tab, newline, vertical tab, form feed
      and carriage return. */
  lemma SpacesAre(c: char)
    ensures IsSpace(c) <==> c as int in {32, 9, 10, 11, 12, 13}
  {
  }

  /** Exactly the non-empty sequences of digits are read as numbers. */
  lemma {:induction false} NumbersAreDigits(s: string)
    ensures ParseDecimal(s).Some? <==> s != "" && forall k :: 0 <= k < |s| ==> '0' <= s[k] <= '9'
    decreases |s|
  {
    if |s| > 1 {
      NumbersAreDigits(s[..|s| - 1]);
    }
  }

  // ---- Lines ----

  const CRLF: string := "\r\n"

  /** The text before the first CRLF and the text after it. */
  function SplitLine(s: string): Option<(string, string)> {
    if |s| < 2 then None
    else if s[0] == '\r' && s[1] == '\n' then Some(("", s[2..]))
    else
      match SplitLine(s[1..])
      case None => None
      case Some(p) => Some(([s[0]] + p.0, p.1))
  }

  lemma {:induction false} SplitOfLine(line: string, rest: string)
    requires '\r' !in line
    ensures SplitLine(line + CRLF + rest) == Some((line, rest))
  {
    var s := line + CRLF + rest;
    if line == "" {
      assert s[2..] == rest;
    } else {
      assert s[1..] == line[1..] + CRLF + rest;
      SplitOfLine(line[1..], rest);
      assert [line[0]] + line[1..] == line;
    }
  }
}
