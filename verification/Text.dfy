/** Strings: cutting at a separator, decimal numerals, and regular expressions by their denotation. */
module Text {
  import opened Wire

  // ----- strings.Cut

  datatype CutResult = CutResult(before: string, after: string, found: bool)

  function Cut(s: string, sep: char): (r: CutResult)
    ensures sep !in r.before
    ensures r.found <==> sep in s
    ensures s == if r.found then r.before + [sep] + r.after else r.before
    ensures !r.found ==> r.after == ""
  {
    if s == "" then CutResult("", "", false)
    else if s[0] == sep then CutResult("", s[1..], true)
    else
      var rest := Cut(s[1..], sep);
      assert s == [s[0]] + s[1..];
      CutResult([s[0]] + rest.before, rest.after, rest.found)
  }

  /** There is only one way to split a string at its first separator. */
  lemma {:induction false} CutUnique(a: string, sep: char, b: string)
    requires sep !in a
    ensures Cut(a + [sep] + b, sep) == CutResult(a, b, true)
  {
    var s := a + [sep] + b;
    if a != "" {
      assert s[1..] == a[1..] + [sep] + b;
      CutUnique(a[1..], sep, b);
      assert a == [a[0]] + a[1..];
    }
  }

  lemma Regroup(a: string, b: string, c: string)
    ensures a + b + c == a + (b + c)
  {
  }

  lemma CutJoins(s: string, sep: char, text: string)
    requires Cut(s, sep).found && text == [sep]
    ensures s == Cut(s, sep).before + (text + Cut(s, sep).after)
  {
    var r := Cut(s, sep);
    Regroup(r.before, text, r.after);
  }

  // ----- Decimal numerals

  predicate IsDigit(c: char) {
    '0' <= c <= '9'
  }

  predicate IsDigit19(c: char) {
    '1' <= c <= '9'
  }

  predicate All(s: string, p: char -> bool) {
    forall i :: 0 <= i < |s| ==> p(s[i])
  }

  /** A numeral without leading zeros. */
  predicate IsNumeral(s: string) {
    s == "0" || (s != "" && IsDigit19(s[0]) && All(s[1..], IsDigit))
  }

  function DigitChar(d: nat): (c: char)
    requires d < 10
    ensures IsDigit(c) && c as int == '0' as int + d
  {
    ('0' as int + d) as char
  }

  function Print(n: nat): (s: string)
    ensures s != ""
  {
    if n < 10 then [DigitChar(n)] else Print(n / 10) + [DigitChar(n % 10)]
  }

  function Parse(s: string): nat
    requires All(s, IsDigit)
  {
    if s == "" then 0 else 10 * Parse(s[..|s| - 1]) + (s[|s| - 1] as int - '0' as int)
  }

  lemma NumeralDigits(s: string)
    requires IsNumeral(s)
    ensures s != "" && All(s, IsDigit)
  {
    forall i | 0 <= i < |s| ensures IsDigit(s[i]) {
      if i > 0 && s != "0" {
        assert s[1..][i - 1] == s[i];
      }
    }
  }

  lemma NumeralFront(s: string)
    requires IsNumeral(s) && |s| > 1
    ensures IsNumeral(s[..|s| - 1]) && IsDigit19(s[0])
  {
    var front := s[..|s| - 1];
    forall i | 0 <= i < |front[1..]| ensures IsDigit(front[1..][i]) {
      assert front[1..][i] == s[1..][i];
    }
  }

  lemma {:induction false} PrintIsNumeral(n: nat)
    ensures IsNumeral(Print(n)) && (n > 0 ==> Print(n)[0] != '0')
  {
    if n >= 10 {
      PrintIsNumeral(n / 10);
      var front := Print(n / 10);
      var s := front + [DigitChar(n % 10)];
      forall i | 0 <= i < |s[1..]| ensures IsDigit(s[1..][i]) {
        assert i < |front[1..]| ==> s[1..][i] == front[1..][i];
      }
    }
  }

  /** Printing loses nothing. */
  lemma {:induction false} ParsePrint(n: nat)
    ensures All(Print(n), IsDigit) && Parse(Print(n)) == n
  {
    PrintIsNumeral(n);
    NumeralDigits(Print(n));
    if n >= 10 {
      ParsePrint(n / 10);
      var s := Print(n);
      assert s[..|s| - 1] == Print(n / 10);
    } else {
      var s := Print(n);
      assert s[..|s| - 1] == "";
    }
  }

  lemma {:induction false} ParsePositive(s: string)
    requires IsNumeral(s) && s != "0"
    ensures All(s, IsDigit) && Parse(s) > 0
  {
    NumeralDigits(s);
    if |s| > 1 {
      NumeralFront(s);
      ParsePositive(s[..|s| - 1]);
    } else {
      assert Parse(s[..0]) == 0;
    }
  }

  /** Every numeral is the printing of the number it denotes. */
  lemma {:induction false} PrintParse(s: string)
    requires IsNumeral(s)
    ensures All(s, IsDigit) && Print(Parse(s)) == s
  {
    NumeralDigits(s);
    if |s| == 1 {
      assert Parse(s[..0]) == 0;
    } else {
      var front, d := s[..|s| - 1], s[|s| - 1] as int - '0' as int;
      NumeralFront(s);
      ParsePositive(front);
      PrintParse(front);
      assert Parse(s) / 10 == Parse(front) && Parse(s) % 10 == d;
      assert s == front + [DigitChar(d)];
    }
  }

  // ----- strings.TrimSpace and strconv.Atoi

  /** Unicode white space. */
  predicate IsSpace(c: char) {
    var u := c as int;
    || 0x09 <= u <= 0x0D || u == 0x20 || u == 0x85 || u == 0xA0 || u == 0x1680 || 0x2000 <= u <= 0x200A
    || u == 0x2028 || u == 0x2029 || u == 0x202F || u == 0x205F || u == 0x3000
  }

  function TrimLeft(s: string): string {
    if s != "" && IsSpace(s[0]) then TrimLeft(s[1..]) else s
  }

  function TrimRight(s: string): string {
    if s != "" && IsSpace(s[|s| - 1]) then TrimRight(s[..|s| - 1]) else s
  }

  function TrimSpace(s: string): string {
    TrimRight(TrimLeft(s))
  }

  const INT64_LIMIT: int := 0x8000_0000_0000_0000

  /** An optional sign and at least one digit, within 64 bits. */
  function Atoi(s: string): Option<int> {
    var signed := s != "" && (s[0] == '-' || s[0] == '+');
    var digits := if signed then s[1..] else s;
    if digits == "" || !All(digits, IsDigit) then None
    else
      var n: int := Parse(digits);
      var v := if s[0] == '-' then -n else n;
      if -INT64_LIMIT <= v < INT64_LIMIT then Some(v) else None
  }

  lemma {:induction false} TrimLeftPadded(pad: string, s: string)
    requires All(pad, IsSpace) && s != "" && !IsSpace(s[0])
    ensures TrimLeft(pad + s) == s
  {
    if pad == "" {
      assert pad + s == s;
    } else {
      assert (pad + s)[1..] == pad[1..] + s;
      TrimLeftPadded(pad[1..], s);
    }
  }

  lemma {:induction false} TrimRightPadded(s: string, pad: string)
    requires All(pad, IsSpace) && s != "" && !IsSpace(s[|s| - 1])
    ensures TrimRight(s + pad) == s
  {
    if pad == "" {
      assert s + pad == s;
    } else {
      assert (s + pad)[..|s + pad| - 1] == s + pad[..|pad| - 1];
      TrimRightPadded(s, pad[..|pad| - 1]);
    }
  }

  lemma {:induction false} TrimLeftSplits(s: string) returns (pad: string)
    ensures All(pad, IsSpace) && s == pad + TrimLeft(s)
  {
    pad := "";
    if s != "" && IsSpace(s[0]) {
      var rest := TrimLeftSplits(s[1..]);
      pad := [s[0]] + rest;
      assert s == [s[0]] + s[1..];
    }
  }

  lemma {:induction false} TrimRightSplits(s: string) returns (pad: string)
    ensures All(pad, IsSpace) && s == TrimRight(s) + pad
  {
    pad := "";
    if s != "" && IsSpace(s[|s| - 1]) {
      var rest := TrimRightSplits(s[..|s| - 1]);
      pad := rest + [s[|s| - 1]];
      assert s == s[..|s| - 1] + [s[|s| - 1]];
    }
  }

  /** A sign or none, and digits that denote `v` within 64 bits. */
  predicate Signed(sign: string, digits: string, v: int) {
    && (sign == "" || sign == "+" || sign == "-")
    && digits != "" && All(digits, IsDigit)
    && (v == if sign == "-" then -(Parse(digits) as int) else Parse(digits))
    && -INT64_LIMIT <= v < INT64_LIMIT
  }

  predicate SpelledAs(s: string, v: int, left: string, sign: string, digits: string, right: string) {
    && All(left, IsSpace) && All(right, IsSpace) && Signed(sign, digits, v)
    && s == left + (sign + digits) + right
  }

  /** The string is a decimal spelling of `v`, with white space around it allowed. */
  ghost predicate Spells(s: string, v: int) {
    exists left, sign, digits, right :: SpelledAs(s, v, left, sign, digits, right)
  }

  lemma SignedParses(sign: string, digits: string, v: int)
    requires Signed(sign, digits, v)
    ensures Atoi(sign + digits) == Some(v)
  {
    var body := sign + digits;
    if sign == "" {
      assert body == digits && IsDigit(body[0]);
    } else {
      assert body[1..] == digits && body[0] == sign[0];
    }
  }

  lemma SpelledParses(s: string, v: int, left: string, sign: string, digits: string, right: string)
    requires SpelledAs(s, v, left, sign, digits, right)
    ensures Atoi(TrimSpace(s)) == Some(v)
  {
    var body := sign + digits;
    Regroup(left, body, right);
    assert IsDigit(body[|body| - 1]) && !IsSpace(body[0]) by {
      assert body[|body| - 1] == digits[|digits| - 1];
      assert sign == "" ==> body[0] == digits[0];
    }
    TrimLeftPadded(left, body + right);
    TrimRightPadded(body, right);
    SignedParses(sign, digits, v);
  }

  lemma ParsesSigned(t: string, v: int) returns (sign: string, digits: string)
    requires Atoi(t) == Some(v)
    ensures Signed(sign, digits, v) && t == sign + digits
  {
    var k := if t[0] == '-' || t[0] == '+' then 1 else 0;
    sign, digits := t[..k], t[k..];
  }

  lemma ParsesSpelled(s: string, v: int)
    requires Atoi(TrimSpace(s)) == Some(v)
    ensures Spells(s, v)
  {
    var left := TrimLeftSplits(s);
    var right := TrimRightSplits(TrimLeft(s));
    Regroup(left, TrimSpace(s), right);
    var sign, digits := ParsesSigned(TrimSpace(s), v);
    assert SpelledAs(s, v, left, sign, digits, right);
  }

  /** Trimming and parsing yields a number exactly when the string spells it. */
  lemma AtoiIff(s: string, v: int)
    ensures Atoi(TrimSpace(s)) == Some(v) <==> Spells(s, v)
  {
    if Spells(s, v) {
      var left, sign, digits, right :| SpelledAs(s, v, left, sign, digits, right);
      SpelledParses(s, v, left, sign, digits, right);
    }
    if Atoi(TrimSpace(s)) == Some(v) {
      ParsesSpelled(s, v);
    }
  }

  /** A printed number is read back through any surrounding white space. */
  lemma AtoiTrimmed(left: string, n: nat, right: string)
    requires All(left, IsSpace) && All(right, IsSpace) && n < INT64_LIMIT
    ensures Atoi(TrimSpace(left + Print(n) + right)) == Some(n)
  {
    ParsePrint(n);
    assert "" + Print(n) == Print(n);
    SpelledParses(left + Print(n) + right, n, left, "", Print(n), right);
  }

  // ----- Regular expressions

  datatype Re =
    | Chars(p: char -> bool)
    | Lit(text: string)
    | Cat(left: Re, right: Re)
    | Alt(left: Re, right: Re)
    | Star(body: Re)

  /** The language of an expression: the whole string matches. */
  ghost predicate Matches(r: Re, s: string)
    decreases r, |s|
  {
    match r
    case Chars(p) => |s| == 1 && p(s[0])
    case Lit(text) => s == text
    case Cat(a, b) => exists k :: 0 <= k <= |s| && Matches(a, s[..k]) && Matches(b, s[k..])
    case Alt(a, b) => Matches(a, s) || Matches(b, s)
    case Star(a) => s == "" || exists k :: 0 < k <= |s| && Matches(a, s[..k]) && Matches(r, s[k..])
  }

  lemma CatIntro(a: Re, b: Re, s: string, k: nat)
    requires k <= |s| && Matches(a, s[..k]) && Matches(b, s[k..])
    ensures Matches(Cat(a, b), s)
  {
  }

  lemma {:induction false} StarChars(p: char -> bool, s: string)
    ensures Matches(Star(Chars(p)), s) <==> All(s, p)
    decreases |s|
  {
    if s != "" {
      StarChars(p, s[1..]);
      if Matches(Star(Chars(p)), s) {
        var k :| 0 < k <= |s| && Matches(Chars(p), s[..k]) && Matches(Star(Chars(p)), s[k..]);
        assert s[..k][0] == s[0];
        assert s == [s[0]] + s[1..];
      }
      if All(s, p) {
        assert Matches(Chars(p), s[..1]);
        assert forall i :: 0 <= i < |s[1..]| ==> s[1..][i] == s[i + 1];
      }
    }
  }

  /** `[p][q]*` */
  lemma HeadTail(p: char -> bool, q: char -> bool, s: string)
    ensures Matches(Cat(Chars(p), Star(Chars(q))), s) <==> s != "" && p(s[0]) && All(s[1..], q)
  {
    if Matches(Cat(Chars(p), Star(Chars(q))), s) {
      var k :| 0 <= k <= |s| && Matches(Chars(p), s[..k]) && Matches(Star(Chars(q)), s[k..]);
      assert s[..k][0] == s[0];
      StarChars(q, s[1..]);
    }
    if s != "" && p(s[0]) && All(s[1..], q) {
      StarChars(q, s[1..]);
      CatIntro(Chars(p), Star(Chars(q)), s, 1);
    }
  }

  /** `[p]+` */
  lemma PlusChars(p: char -> bool, s: string)
    ensures Matches(Cat(Chars(p), Star(Chars(p))), s) <==> s != "" && All(s, p)
  {
    HeadTail(p, p, s);
    assert s != "" ==> s == [s[0]] + s[1..];
    assert forall i :: 1 <= i < |s| ==> s[1..][i - 1] == s[i];
  }

  lemma CharsFirst(p: char -> bool, r: Re, s: string)
    requires Matches(Cat(Chars(p), r), s)
    ensures s != "" && p(s[0]) && Matches(r, s[1..])
  {
    var k :| 0 <= k <= |s| && Matches(Chars(p), s[..k]) && Matches(r, s[k..]);
    assert s[..k][0] == s[0];
  }

  lemma LitFirst(text: string, r: Re, s: string)
    requires Matches(Cat(Lit(text), r), s)
    ensures text <= s && Matches(r, s[|text|..])
  {
    var k :| 0 <= k <= |s| && Matches(Lit(text), s[..k]) && Matches(r, s[k..]);
  }

  lemma LitLast(r: Re, text: string, s: string) returns (k: nat)
    requires Matches(Cat(r, Lit(text)), s)
    ensures k <= |s| && Matches(r, s[..k]) && s[k..] == text
  {
    k :| 0 <= k <= |s| && Matches(r, s[..k]) && Matches(Lit(text), s[k..]);
  }
}
