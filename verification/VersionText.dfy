/** Versions as text: `1.2.3`, read back with or without a leading `v` (scripts/release/version.ts). */
module VersionText {
  import opened Wrappers
  import opened Release

  predicate IsDigit(c: char) { '0' <= c <= '9' }

  ghost predicate AllDigits(s: string) {
    forall i | 0 <= i < |s| :: IsDigit(s[i])
  }

  function DigitChar(d: nat): (c: char)
    requires d < 10
    ensures IsDigit(c) && DigitValue(c) == d
  {
    d as char + '0'
  }

  function DigitValue(c: char): (d: nat)
    requires IsDigit(c)
    ensures d < 10 && (d == 0 <==> c == '0')
  {
    (c - '0') as nat
  }

  /** A natural number in decimal, as a template string writes it. */
  function Decimal(n: nat): (s: string)
    ensures AllDigits(s) && s != ""
  {
    if n < 10 then [DigitChar(n)] else Decimal(n / 10) + [DigitChar(n % 10)]
  }

  /** What Number() reads in a string of digits. */
  function Value(s: string): nat
    requires AllDigits(s)
    decreases |s|
  {
    if s == "" then 0 else 10 * Value(s[..|s| - 1]) + DigitValue(s[|s| - 1])
  }

  function FormatVersion(v: SemVer): string {
    Decimal(v.major) + "." + Decimal(v.minor) + "." + Decimal(v.patch)
  }

  // ----- reading

  /** White space and line ends, as trim() strips them. */
  predicate IsBlank(c: char) {
    || c == ' ' || '\t' <= c <= '\r' || c == '\U{00A0}' || c == '\U{1680}' || '\U{2000}' <= c <= '\U{200A}'
    || c == '\U{2028}' || c == '\U{2029}' || c == '\U{202F}' || c == '\U{205F}' || c == '\U{3000}' || c == '\U{FEFF}'
  }

  function Trim(text: string): string
    decreases |text|
  {
    if text == "" then ""
    else if IsBlank(text[0]) then Trim(text[1..])
    else if IsBlank(text[|text| - 1]) then Trim(text[..|text| - 1])
    else text
  }

  function DigitRun(s: string): (n: nat)
    ensures n <= |s| && AllDigits(s[..n]) && (n < |s| ==> !IsDigit(s[n]))
  {
    if s == "" || !IsDigit(s[0]) then 0
    else
      var n := 1 + DigitRun(s[1..]);
      assert s[..n] == [s[0]] + s[1..][..n - 1];
      n
  }

  /** Digits, then whatever follows the dot after them. */
  function Component(s: string): (r: Option<(nat, string)>)
    ensures r.Some? ==> |r.value.1| < |s|
  {
    var n := DigitRun(s);
    if 0 < n < |s| && s[n] == '.' then Some((Value(s[..n]), s[n + 1..])) else None
  }

  function ParseNumbers(s: string): Option<SemVer> {
    var major := Component(s);
    if major.None? then None
    else
      var minor := Component(major.value.1);
      if minor.None? then None
      else
        var last := minor.value.1;
        if last != "" && DigitRun(last) == |last| then
          assert last[..|last|] == last;
          Some(SemVer(major.value.0, minor.value.0, Value(last)))
        else None
  }

  function WithoutV(s: string): string {
    if s != "" && s[0] == 'v' then s[1..] else s
  }

  function ParseVersion(text: string): Option<SemVer> {
    ParseNumbers(WithoutV(Trim(text)))
  }

  // ----- reading back what was written

  lemma {:induction false} ValueOfDecimal(n: nat)
    ensures Value(Decimal(n)) == n
  {
    if n >= 10 {
      ValueOfDecimal(n / 10);
      assert Decimal(n)[..|Decimal(n)| - 1] == Decimal(n / 10);
    } else {
      assert [DigitChar(n)][..0] == "";
    }
  }

  lemma {:induction false} DigitRunStops(digits: string, rest: string)
    requires AllDigits(digits) && (rest == "" || !IsDigit(rest[0]))
    ensures DigitRun(digits + rest) == |digits|
    decreases |digits|
  {
    if digits == "" {
      assert digits + rest == rest;
    } else {
      assert (digits + rest)[1..] == digits[1..] + rest;
      DigitRunStops(digits[1..], rest);
    }
  }

  lemma ComponentReads(digits: string, rest: string)
    requires AllDigits(digits) && digits != ""
    ensures Component(digits + "." + rest) == Some((Value(digits), rest))
  {
    var s := digits + "." + rest;
    assert s == digits + ("." + rest);
    DigitRunStops(digits, "." + rest);
    assert s[..|digits|] == digits && s[|digits| + 1..] == rest;
  }

  /** Three runs of digits with dots between them. */
  function Dotted(major: string, minor: string, patch: string): string {
    major + "." + minor + "." + patch
  }

  ghost predicate Numerals(major: string, minor: string, patch: string) {
    AllDigits(major) && AllDigits(minor) && AllDigits(patch) && major != "" && minor != "" && patch != ""
  }

  ghost predicate Spells(s: string, major: string, minor: string, patch: string, v: SemVer) {
    Numerals(major, minor, patch) && s == Dotted(major, minor, patch)
        && v == SemVer(Value(major), Value(minor), Value(patch))
  }

  lemma ParsesDotted(major: string, minor: string, patch: string)
    requires Numerals(major, minor, patch)
    ensures ParseNumbers(Dotted(major, minor, patch)) == Some(SemVer(Value(major), Value(minor), Value(patch)))
  {
    assert Dotted(major, minor, patch) == major + "." + (minor + "." + patch);
    ComponentReads(major, minor + "." + patch);
    ComponentReads(minor, patch);
    assert patch + "" == patch;
    DigitRunStops(patch, "");
  }

  lemma ComponentSplits(s: string) returns (digits: string)
    requires Component(s).Some?
    ensures AllDigits(digits) && digits != "" && s == digits + "." + Component(s).value.1
        && Component(s).value.0 == Value(digits)
  {
    var n := DigitRun(s);
    digits := s[..n];
    assert s == s[..n] + [s[n]] + s[n + 1..];
  }

  lemma ReadIsSpelled(s: string)
    requires ParseNumbers(s).Some?
    ensures Spelled(s, ParseNumbers(s).value)
  {
    var major := ComponentSplits(s);
    var minor := ComponentSplits(Component(s).value.1);
    var patch := Component(Component(s).value.1).value.1;
    assert patch[..|patch|] == patch;
    hide Component;
    assert s == major + "." + (minor + "." + patch) == Dotted(major, minor, patch);
    assert Spells(s, major, minor, patch, ParseNumbers(s).value);
  }

  ghost predicate Spelled(s: string, v: SemVer) {
    exists major, minor, patch :: Spells(s, major, minor, patch, v)
  }

  lemma SpelledIsRead(s: string, v: SemVer)
    requires Spelled(s, v)
    ensures ParseNumbers(s) == Some(v)
  {
    var major, minor, patch :| Spells(s, major, minor, patch, v);
    ParsesDotted(major, minor, patch);
  }

  /**
   * A text is read as a version exactly when, blanks and one leading v aside, it is three runs of digits joined by
   * dots, and then as their values.
   */
  lemma ParsesExactlyDotted(text: string, v: SemVer)
    ensures ParseVersion(text) == Some(v) <==> Spelled(WithoutV(Trim(text)), v)
  {
    var s := WithoutV(Trim(text));
    hide ParseNumbers, Spelled;
    if ParseNumbers(s).Some? {
      ReadIsSpelled(s);
    }
    if Spelled(s, v) {
      SpelledIsRead(s, v);
    }
  }

  lemma {:induction false} TrimPads(before: string, s: string, after: string)
    requires s != "" && !IsBlank(s[0]) && !IsBlank(s[|s| - 1])
    requires (forall c | c in before :: IsBlank(c)) && (forall c | c in after :: IsBlank(c))
    ensures Trim(before + s + after) == s
    decreases |before| + |after|
  {
    var text := before + s + after;
    if before != "" {
      assert text[1..] == before[1..] + s + after;
      TrimPads(before[1..], s, after);
    } else if after != "" {
      var n := |after| - 1;
      assert text[0] == s[0] && text[..|text| - 1] == before + s + after[..n];
      TrimPads(before, s, after[..n]);
    } else {
      assert text == s;
    }
  }

  lemma FormatIsSolid(v: SemVer)
    ensures var s := FormatVersion(v); s != "" && IsDigit(s[0]) && IsDigit(s[|s| - 1])
  {
    var a, b, c := Decimal(v.major), Decimal(v.minor), Decimal(v.patch);
    assert FormatVersion(v) == a + ("." + b + "." + c);
    assert FormatVersion(v) == (a + "." + b + ".") + c;
  }

  /**
   * Whatever the components, a written version reads back as itself: bare, tagged with a v, and with blanks around it.
   */
  lemma ParseReadsFormat(v: SemVer, before: string, after: string)
    requires (forall c | c in before :: IsBlank(c)) && (forall c | c in after :: IsBlank(c))
    ensures ParseVersion(before + FormatVersion(v) + after) == Some(v)
    ensures ParseVersion(before + ("v" + FormatVersion(v)) + after) == Some(v)
  {
    var s := FormatVersion(v);
    FormatIsSolid(v);
    TrimPads(before, s, after);
    assert "v" + s == ['v'] + s;
    TrimPads(before, "v" + s, after);
    assert ("v" + s)[1..] == s;
    ValueOfDecimal(v.major);
    ValueOfDecimal(v.minor);
    ValueOfDecimal(v.patch);
    assert s == Dotted(Decimal(v.major), Decimal(v.minor), Decimal(v.patch));
    ParsesDotted(Decimal(v.major), Decimal(v.minor), Decimal(v.patch));
  }

  /** Different versions are written differently. */
  lemma FormatIsInjective(v: SemVer, w: SemVer)
    requires FormatVersion(v) == FormatVersion(w)
    ensures v == w
  {
    ParseReadsFormat(v, "", "");
    ParseReadsFormat(w, "", "");
  }

  ghost predicate NoLeadingZero(s: string) {
    s != "" && (s[0] == '0' ==> |s| == 1)
  }

  lemma LastDigit(n: nat, c: char)
    requires IsDigit(c)
    ensures (10 * n + DigitValue(c)) / 10 == n && DigitChar((10 * n + DigitValue(c)) % 10) == c
  {
  }

  lemma {:induction false} DecimalOfValue(s: string)
    requires AllDigits(s) && NoLeadingZero(s)
    ensures Decimal(Value(s)) == s && (s != "0" ==> Value(s) > 0)
    decreases |s|
  {
    var n := |s| - 1;
    var front := s[..n];
    assert s == front + [s[n]];
    LastDigit(Value(front), s[n]);
    if n > 0 {
      DecimalOfValue(front);
      assert Value(front) > 0;
    } else {
      assert front == "";
      assert Value(s) == DigitValue(s[0]);
    }
    hide DigitChar, DigitValue;
  }

  /** A version read from numerals without leading zeros is written back as it stood. */
  lemma FormatWritesParsed(major: string, minor: string, patch: string)
    requires Numerals(major, minor, patch) && NoLeadingZero(major) && NoLeadingZero(minor) && NoLeadingZero(patch)
    ensures var v := ParseNumbers(Dotted(major, minor, patch));
        v.Some? && FormatVersion(v.value) == Dotted(major, minor, patch)
  {
    ParsesDotted(major, minor, patch);
    DecimalOfValue(major);
    DecimalOfValue(minor);
    DecimalOfValue(patch);
  }
}
