/** The strict validator's patterns: each regular expression, and a recogniser proved to decide it. */
module Patterns {
  import opened Text

  predicate IsLower(c: char) {
    'a' <= c <= 'z'
  }

  predicate IsLowerDigit(c: char) {
    IsLower(c) || IsDigit(c)
  }

  predicate IsNameChar(c: char) {
    IsLowerDigit(c) || c == '-'
  }

  predicate IsArchChar(c: char) {
    IsLowerDigit(c) || c == '_'
  }

  predicate IsEnvChar(c: char) {
    IsLower(c) || c == '_'
  }

  predicate IsSchemeChar(c: char) {
    IsLowerDigit(c) || c == '+' || c == '.' || c == '-'
  }

  /** The character classes, letter by letter. */
  lemma Alphabets(c: char)
    ensures IsLower(c) <==> c in "abcdefghijklmnopqrstuvwxyz"
    ensures IsNameChar(c) <==> c in "abcdefghijklmnopqrstuvwxyz" || c in "0123456789" || c in "-"
    ensures IsLowerDigit(c) <==> c in "abcdefghijklmnopqrstuvwxyz" || c in "0123456789"
    ensures IsArchChar(c) <==> c in "abcdefghijklmnopqrstuvwxyz" || c in "0123456789" || c in "_"
    ensures IsEnvChar(c) <==> c in "abcdefghijklmnopqrstuvwxyz" || c in "_"
    ensures IsSchemeChar(c) <==> c in "abcdefghijklmnopqrstuvwxyz" || c in "0123456789" || c in "+.-"
  {
  }

  const NAME_RE := Cat(Chars(IsLower), Star(Chars(IsNameChar)))
  const OS_RE := Cat(Chars(IsLower), Star(Chars(IsLowerDigit)))
  const ARCH_RE := Cat(Chars(IsArchChar), Star(Chars(IsArchChar)))
  const ENV_RE := Cat(Chars(IsLower), Star(Chars(IsEnvChar)))
  const SCHEME_RE := Cat(Chars(IsLower), Cat(Cat(Chars(IsSchemeChar), Star(Chars(IsSchemeChar))), Lit("://")))
  const NUMBER_RE := Alt(Lit("0"), Cat(Chars(IsDigit19), Star(Chars(IsDigit))))
  const VERSION_RE := Cat(NUMBER_RE, Cat(Lit("."), Cat(NUMBER_RE, Cat(Lit("."), NUMBER_RE))))
  const TYPE_RE := Alt(Lit("string"), Alt(Lit("number"), Alt(Lit("boolean"), Alt(Lit("object"), Lit("array")))))

  predicate IsName(s: string) {
    s != "" && IsLower(s[0]) && All(s[1..], IsNameChar)
  }

  predicate IsOs(s: string) {
    s != "" && IsLower(s[0]) && All(s[1..], IsLowerDigit)
  }

  predicate IsArch(s: string) {
    s != "" && All(s, IsArchChar)
  }

  predicate IsEnv(s: string) {
    s != "" && IsLower(s[0]) && All(s[1..], IsEnvChar)
  }

  predicate IsFieldType(s: string) {
    s == "string" || s == "number" || s == "boolean" || s == "object" || s == "array"
  }

  /** End of the run of scheme characters that starts at `i`. */
  function SchemeEnd(s: string, i: nat): (j: nat)
    requires i <= |s|
    ensures i <= j <= |s|
    ensures forall k :: i <= k < j ==> IsSchemeChar(s[k])
    ensures j < |s| ==> !IsSchemeChar(s[j])
    decreases |s| - i
  {
    if i < |s| && IsSchemeChar(s[i]) then SchemeEnd(s, i + 1) else i
  }

  /** A lower-case letter, at least one more scheme character, then "://"; anything may follow. */
  predicate HasScheme(s: string) {
    && s != "" && IsLower(s[0])
    && var j := SchemeEnd(s, 1); j >= 2 && j + 3 <= |s| && s[j..j + 3] == "://"
  }

  predicate IsVersion(s: string) {
    var major := Cut(s, '.');
    var minor := Cut(major.after, '.');
    major.found && minor.found && IsNumeral(major.before) && IsNumeral(minor.before) && IsNumeral(minor.after)
  }

  lemma NameDecided(s: string)
    ensures IsName(s) <==> Matches(NAME_RE, s)
  {
    HeadTail(IsLower, IsNameChar, s);
  }

  lemma OsDecided(s: string)
    ensures IsOs(s) <==> Matches(OS_RE, s)
  {
    HeadTail(IsLower, IsLowerDigit, s);
  }

  lemma ArchDecided(s: string)
    ensures IsArch(s) <==> Matches(ARCH_RE, s)
  {
    PlusChars(IsArchChar, s);
  }

  lemma EnvDecided(s: string)
    ensures IsEnv(s) <==> Matches(ENV_RE, s)
  {
    HeadTail(IsLower, IsEnvChar, s);
  }

  lemma TypesAre(s: string)
    ensures IsFieldType(s) <==> s in ["string", "number", "boolean", "object", "array"]
  {
  }

  lemma TypeDecided(s: string)
    ensures IsFieldType(s) <==> Matches(TYPE_RE, s)
  {
    assert Matches(TYPE_RE, s) <==> s == "string" || Matches(TYPE_RE.right, s);
    assert Matches(TYPE_RE.right, s) <==> s == "number" || Matches(TYPE_RE.right.right, s);
    assert Matches(TYPE_RE.right.right, s) <==> s == "boolean" || Matches(TYPE_RE.right.right.right, s);
  }

  /** The URL pattern is anchored on the left only: some prefix must match. */
  ghost predicate MatchesPrefix(r: Re, s: string) {
    exists k :: 0 <= k <= |s| && Matches(r, s[..k])
  }

  lemma SchemeFound(s: string)
    requires HasScheme(s)
    ensures MatchesPrefix(SCHEME_RE, s)
  {
    var j := SchemeEnd(s, 1);
    var m := s[..j + 3];
    var body := m[1..];
    var plus := SCHEME_RE.right.left;
    PlusChars(IsSchemeChar, body[..j - 1]);
    assert forall i :: 0 <= i < j - 1 ==> body[i] == s[i + 1];
    assert body[j - 1..] == "://";
    CatIntro(plus, Lit("://"), body, j - 1);
    assert Matches(Chars(IsLower), m[..1]);
    CatIntro(Chars(IsLower), SCHEME_RE.right, m, 1);
  }

  /** The scheme characters of a match, up to its colon at position `k`. */
  lemma SchemeRun(s: string, k: nat)
    requires s != "" && 2 <= k && k + 3 <= |s| && s[k..k + 3] == "://"
    requires All(s[1..k], IsSchemeChar) && IsLower(s[0])
    ensures HasScheme(s)
  {
    forall x | 1 <= x < k ensures IsSchemeChar(s[x]) {
      assert s[1..k][x - 1] == s[x];
    }
    assert s[k] == s[k..k + 3][0];
    assert SchemeEnd(s, 1) == k;
  }

  lemma Subslices(s: string, n: nat, k: nat)
    requires 1 <= k + 1 <= n <= |s|
    ensures s[..n][1..][..k] == s[1..k + 1] && s[..n][1..][k..] == s[k + 1..n]
  {
  }

  lemma SchemeNeeded(s: string, n: nat)
    requires n <= |s| && Matches(SCHEME_RE, s[..n])
    ensures HasScheme(s)
  {
    var m := s[..n];
    CharsFirst(IsLower, SCHEME_RE.right, m);
    var k := LitLast(SCHEME_RE.right.left, "://", m[1..]);
    PlusChars(IsSchemeChar, m[1..][..k]);
    Subslices(s, n, k);
    SchemeRun(s, k + 1);
  }

  lemma SchemeDecided(s: string)
    ensures HasScheme(s) <==> MatchesPrefix(SCHEME_RE, s)
  {
    if HasScheme(s) {
      SchemeFound(s);
    }
    if MatchesPrefix(SCHEME_RE, s) {
      var n :| 0 <= n <= |s| && Matches(SCHEME_RE, s[..n]);
      SchemeNeeded(s, n);
    }
  }

  lemma NumberDecided(s: string)
    ensures IsNumeral(s) <==> Matches(NUMBER_RE, s)
  {
    HeadTail(IsDigit19, IsDigit, s);
  }

  // ----- Versions

  function PrintVersion(major: nat, minor: nat, patch: nat): string {
    Print(major) + "." + Print(minor) + "." + Print(patch)
  }

  lemma NumeralHasNoDot(s: string)
    requires IsNumeral(s)
    ensures '.' !in s
  {
    NumeralDigits(s);
  }

  lemma ThreeParts(a: string, b: string, c: string)
    requires '.' !in a && '.' !in b
    ensures Cut(a + "." + b + "." + c, '.') == CutResult(a, b + "." + c, true)
    ensures Cut(b + "." + c, '.') == CutResult(b, c, true)
  {
    CutUnique(a, '.', b + "." + c);
    assert a + "." + b + "." + c == a + ['.'] + (b + "." + c);
    CutUnique(b, '.', c);
    assert b + "." + c == b + ['.'] + c;
  }

  /** The version pattern accepts exactly three dot-separated numerals. */
  lemma VersionDecided(s: string)
    ensures IsVersion(s) <==> Matches(VERSION_RE, s)
  {
    if IsVersion(s) {
      VersionFound(s);
    }
    if Matches(VERSION_RE, s) {
      VersionNeeded(s);
    }
  }

  lemma LitThen(text: string, r: Re, s: string)
    requires Matches(r, s)
    ensures Matches(Cat(Lit(text), r), text + s)
  {
    assert (text + s)[..|text|] == text && (text + s)[|text|..] == s;
    CatIntro(Lit(text), r, text + s, |text|);
  }

  lemma NumeralThen(a: string, r: Re, s: string)
    requires IsNumeral(a) && Matches(r, s)
    ensures Matches(Cat(NUMBER_RE, Cat(Lit("."), r)), a + ("." + s))
  {
    var t := a + ("." + s);
    NumberDecided(a);
    LitThen(".", r, s);
    assert t[..|a|] == a && t[|a|..] == "." + s;
    CatIntro(NUMBER_RE, Cat(Lit("."), r), t, |a|);
  }

  lemma NumeralsMatch(a: string, b: string, c: string)
    requires IsNumeral(a) && IsNumeral(b) && IsNumeral(c)
    ensures Matches(VERSION_RE, a + ("." + (b + ("." + c))))
  {
    NumberDecided(c);
    NumeralThen(b, NUMBER_RE, c);
    NumeralThen(a, Cat(NUMBER_RE, Cat(Lit("."), NUMBER_RE)), b + ("." + c));
  }

  lemma CutRejoins(s: string)
    requires Cut(s, '.').found
    ensures s == Cut(s, '.').before + ("." + Cut(s, '.').after)
  {
    CutJoins(s, '.', ".");
  }

  lemma VersionFound(s: string)
    requires IsVersion(s)
    ensures Matches(VERSION_RE, s)
  {
    var major := Cut(s, '.');
    var minor := Cut(major.after, '.');
    CutRejoins(s);
    CutRejoins(major.after);
    NumeralsMatch(major.before, minor.before, minor.after);
  }

  lemma NumeralFirst(r: Re, s: string) returns (a: string, rest: string)
    requires Matches(Cat(NUMBER_RE, Cat(Lit("."), r)), s)
    ensures IsNumeral(a) && Matches(r, rest) && s == a + "." + rest
  {
    var k :| 0 <= k <= |s| && Matches(NUMBER_RE, s[..k]) && Matches(Cat(Lit("."), r), s[k..]);
    LitFirst(".", r, s[k..]);
    a, rest := s[..k], s[k..][1..];
    NumberDecided(a);
    assert s[k..] == "." + rest;
    assert s == s[..k] + s[k..];
  }

  lemma VersionNeeded(s: string)
    requires Matches(VERSION_RE, s)
    ensures IsVersion(s)
  {
    var a, rest := NumeralFirst(Cat(NUMBER_RE, Cat(Lit("."), NUMBER_RE)), s);
    var b, c := NumeralFirst(NUMBER_RE, rest);
    NumberDecided(c);
    NumeralHasNoDot(a);
    NumeralHasNoDot(b);
    ThreeParts(a, b, c);
    assert s == a + "." + b + "." + c;
  }

  lemma VersionTriple(s: string) returns (a: nat, b: nat, c: nat)
    requires IsVersion(s)
    ensures s == PrintVersion(a, b, c)
  {
    var major := Cut(s, '.');
    var minor := Cut(major.after, '.');
    PrintParse(major.before);
    PrintParse(minor.before);
    PrintParse(minor.after);
    a, b, c := Parse(major.before), Parse(minor.before), Parse(minor.after);
    CutRejoins(s);
    CutRejoins(major.after);
    RegroupFive(Print(a), Print(b), Print(c));
  }

  lemma RegroupFive(a: string, b: string, c: string)
    ensures a + ("." + (b + ("." + c))) == a + "." + b + "." + c
  {
  }

  /** Accepted versions are exactly the printed triples of naturals. */
  lemma VersionIsPrinted(s: string)
    ensures Matches(VERSION_RE, s) <==> exists a: nat, b: nat, c: nat :: s == PrintVersion(a, b, c)
  {
    VersionDecided(s);
    if IsVersion(s) {
      var a, b, c := VersionTriple(s);
    }
    if exists a: nat, b: nat, c: nat :: s == PrintVersion(a, b, c) {
      var a: nat, b: nat, c: nat :| s == PrintVersion(a, b, c);
      PrintedIsVersion(a, b, c);
    }
  }

  lemma PrintedIsVersion(a: nat, b: nat, c: nat)
    ensures IsVersion(PrintVersion(a, b, c))
    ensures Cut(PrintVersion(a, b, c), '.') == CutResult(Print(a), Print(b) + "." + Print(c), true)
    ensures Cut(Print(b) + "." + Print(c), '.') == CutResult(Print(b), Print(c), true)
  {
    PrintIsNumeral(a);
    PrintIsNumeral(b);
    PrintIsNumeral(c);
    NumeralHasNoDot(Print(a));
    NumeralHasNoDot(Print(b));
    ThreeParts(Print(a), Print(b), Print(c));
  }

  /** A version string determines its triple. */
  lemma VersionUnique(a: nat, b: nat, c: nat, x: nat, y: nat, z: nat)
    requires PrintVersion(a, b, c) == PrintVersion(x, y, z)
    ensures a == x && b == y && c == z
  {
    PrintedIsVersion(a, b, c);
    PrintedIsVersion(x, y, z);
    ParsePrint(a);
    ParsePrint(b);
    ParsePrint(c);
    ParsePrint(x);
    ParsePrint(y);
    ParsePrint(z);
  }
}
