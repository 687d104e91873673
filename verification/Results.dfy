/** The RESULTS line: its decimal rendering, the pattern that finds it in a log and the three
    look-ahead patterns that take the counts back out. */
module Results {
  import opened Basics

  // Decimal numbers.

  predicate IsDigit(c: char) {
    '0' <= c <= '9'
  }

  predicate Digits(s: string) {
    s != "" && forall i | 0 <= i < |s| :: IsDigit(s[i])
  }

  function Decimal(n: nat): (s: string)
    ensures Digits(s)
  {
    var last := [('0' as int + n % 10) as char];
    if n < 10 then last else Decimal(n / 10) + last
  }

  function Value(s: string): nat
    requires s == "" || Digits(s)
  {
    if s == "" then 0 else Value(s[..|s| - 1]) * 10 + (s[|s| - 1] as int - '0' as int)
  }

  lemma {:induction false} DecimalValue(n: nat)
    ensures Value(Decimal(n)) == n
  {
    if n >= 10 {
      DecimalValue(n / 10);
      assert Decimal(n)[..|Decimal(n)| - 1] == Decimal(n / 10);
    } else {
      assert Decimal(n)[..0] == "";
    }
  }

  /** No leading zero, which shell arithmetic would read as octal. */
  lemma {:induction false} NoLeadingZero(n: nat)
    ensures n > 0 ==> Decimal(n)[0] != '0'
  {
    if n >= 10 {
      NoLeadingZero(n / 10);
    }
  }

  // The patterns.

  predicate StartsWith(s: string, lit: string) {
    |lit| <= |s| && s[..|lit|] == lit
  }

  /** The length of the run of digits s begins with. */
  function DigitRun(s: string): (n: nat)
    ensures n <= |s| && (forall i | 0 <= i < n :: IsDigit(s[i])) && (n < |s| ==> !IsDigit(s[n]))
  {
    if s == "" || !IsDigit(s[0]) then 0 else 1 + DigitRun(s[1..])
  }

  /** The longest of the first n characters after which lit follows; 0 if there is none. */
  function Backtrack(s: string, n: nat, lit: string): nat
    requires n <= |s|
  {
    if n == 0 || StartsWith(s[n..], lit) then n else Backtrack(s, n - 1, lit)
  }

  /** Every match of one or more digits that lit follows, left to right, greedily. */
  function NumbersBefore(s: string, lit: string): seq<string>
    decreases |s|
  {
    if s == "" then []
    else
      var n := Backtrack(s, DigitRun(s), lit);
      if 0 < n <= |s| then [s[..n]] + NumbersBefore(s[n..], lit) else NumbersBefore(s[1..], lit)
  }

  const HEAD := "RESULTS: "
  const SLASH := "/"
  const PASSED := " passed"
  const COMMA := ", "
  const FAILED := " failed"

  function Text(p: string, t: string, f: string): string {
    HEAD + (p + (SLASH + (t + (PASSED + (COMMA + (f + FAILED))))))
  }

  /** What is left of s after a literal. */
  function Literal(s: Option<string>, lit: string): Option<string> {
    if s.Some? && StartsWith(s.value, lit) then Some(s.value[|lit|..]) else None
  }

  /** What is left of s after one or more digits, as many as there are. */
  function Number(s: Option<string>): Option<string> {
    if s.Some? && DigitRun(s.value) > 0 then Some(s.value[DigitRun(s.value)..]) else None
  }

  /** What is left of s after a RESULTS text. */
  function AfterText(s: string): (r: Option<string>)
    ensures r.Some? ==> |r.value| < |s|
  {
    Literal(Number(Literal(Number(Literal(Number(Literal(Some(s), HEAD)), SLASH)), PASSED + COMMA)), FAILED)
  }

  /** Every RESULTS text in a line. */
  function TextsIn(line: string): seq<string>
    decreases |line|
  {
    if line == "" then []
    else match AfterText(line)
      case Some(rest) => [line[..|line| - |rest|]] + TextsIn(rest)
      case None => TextsIn(line[1..])
  }

  ghost predicate IsText(s: string) {
    exists p, t, f :: Digits(p) && Digits(t) && Digits(f) && s == Text(p, t, f)
  }

  // What the patterns find.

  lemma {:induction false} RunOfDigits(a: string, rest: string)
    requires Digits(a) && (rest == "" || !IsDigit(rest[0]))
    ensures DigitRun(a + rest) == |a|
  {
    assert (a + rest)[1..] == a[1..] + rest;
    if |a| > 1 { RunOfDigits(a[1..], rest); }
  }

  lemma CutLiteral(lit: string, rest: string)
    ensures Literal(Some(lit + rest), lit) == Some(rest)
  {
    assert (lit + rest)[..|lit|] == lit;
  }

  lemma CutNumber(a: string, rest: string)
    requires Digits(a) && rest != "" && !IsDigit(rest[0])
    ensures Number(Some(a + rest)) == Some(rest)
  {
    RunOfDigits(a, rest);
  }

  /** A RESULTS text is found whatever follows it. */
  lemma TextFound(p: string, t: string, f: string, rest: string)
    requires Digits(p) && Digits(t) && Digits(f)
    ensures AfterText(Text(p, t, f) + rest) == Some(rest)
  {
    var r6 := FAILED + rest;
    var r5 := PASSED + COMMA + (f + r6);
    var r3 := SLASH + (t + r5);
    assert Text(p, t, f) + rest == HEAD + (p + r3);
    CutLiteral(HEAD, p + r3);
    CutNumber(p, r3);
    CutLiteral(SLASH, t + r5);
    CutNumber(t, r5);
    CutLiteral(PASSED + COMMA, f + r6);
    CutNumber(f, r6);
    CutLiteral(FAILED, rest);
  }

  lemma UncutLiteral(s: Option<string>, lit: string)
    requires Literal(s, lit).Some?
    ensures s.Some? && s.value == lit + Literal(s, lit).value
  {
  }

  lemma UncutNumber(s: Option<string>) returns (a: string)
    requires Number(s).Some?
    ensures s.Some? && Digits(a) && s.value == a + Number(s).value
  {
    a := s.value[..DigitRun(s.value)];
  }

  lemma Regroup(h: string, p: string, s: string, t: string, m: string, n: string, f: string, e: string, rest: string)
    ensures h + (p + (s + (t + (m + n + (f + (e + rest)))))) == h + (p + (s + (t + (m + (n + (f + e)))))) + rest
  {
  }

  /** And nothing else is. */
  lemma FoundIsText(s: string)
    requires AfterText(s).Some?
    ensures IsText(s[..|s| - |AfterText(s).value|])
  {
    hide Literal, Number, Digits, DigitRun;
    var s1 := Literal(Some(s), HEAD);
    var s2 := Number(s1);
    var s3 := Literal(s2, SLASH);
    var s4 := Number(s3);
    var s5 := Literal(s4, PASSED + COMMA);
    var s6 := Number(s5);
    var s7 := Literal(s6, FAILED);
    assert AfterText(s) == s7;
    UncutLiteral(s6, FAILED);
    var f := UncutNumber(s5);
    UncutLiteral(s4, PASSED + COMMA);
    var t := UncutNumber(s3);
    UncutLiteral(s2, SLASH);
    var p := UncutNumber(s1);
    UncutLiteral(Some(s), HEAD);
    Whole(s, HEAD, p, SLASH, t, PASSED, COMMA, f, FAILED, s7.value);
  }

  lemma Whole(x: string, h: string, p: string, s: string, t: string, m: string, n: string, f: string, e: string,
      rest: string)
    requires x == h + (p + (s + (t + (m + n + (f + (e + rest))))))
    ensures x[..|x| - |rest|] == h + (p + (s + (t + (m + (n + (f + e))))))
  {
    Regroup(h, p, s, t, m, n, f, e, rest);
  }

  lemma {:induction false} TextsAreTexts(line: string)
    ensures forall i | 0 <= i < |TextsIn(line)| :: IsText(TextsIn(line)[i])
    decreases |line|
  {
    if line != "" {
      if AfterText(line).Some? {
        FoundIsText(line);
        TextsAreTexts(AfterText(line).value);
      } else {
        TextsAreTexts(line[1..]);
      }
    }
  }

  /** The line the runner prints. */
  function Printed(p: nat, t: nat, f: nat): string {
    "  " + Text(Decimal(p), Decimal(t), Decimal(f))
  }

  lemma PassBlank(rest: string)
    ensures TextsIn(" " + rest) == TextsIn(rest)
  {
    var line := " " + rest;
    StartsNot(" ", rest, HEAD, 0);
    assert AfterText(line) == None;
    assert line[1..] == rest;
  }

  lemma PrintedFound(p: nat, t: nat, f: nat)
    ensures TextsIn(Printed(p, t, f)) == [Text(Decimal(p), Decimal(t), Decimal(f))]
  {
    hide Text, AfterText, Decimal, Literal, Number;
    var x := Text(Decimal(p), Decimal(t), Decimal(f));
    assert "  " == " " + " ";
    assert Printed(p, t, f) == " " + (" " + x);
    PassBlank(" " + x);
    PassBlank(x);
    TextFound(Decimal(p), Decimal(t), Decimal(f), "");
    assert x + "" == x && x[..|x|] == x;
  }

  // What the look-ahead patterns find.

  ghost predicate NoDigits(s: string) {
    forall i | 0 <= i < |s| :: !IsDigit(s[i])
  }

  lemma {:induction false} PassOver(s: string, rest: string, lit: string)
    requires NoDigits(s)
    ensures NumbersBefore(s + rest, lit) == NumbersBefore(rest, lit)
  {
    if s == "" {
      assert s + rest == rest;
    } else {
      assert (s + rest)[1..] == s[1..] + rest;
      PassOver(s[1..], rest, lit);
    }
  }

  /** Inside a run of digits no shorter match is possible. */
  lemma {:induction false} NoneShorter(s: string, n: nat, lit: string)
    requires n <= DigitRun(s) && lit != "" && !IsDigit(lit[0])
    requires n < DigitRun(s) || !StartsWith(s[n..], lit)
    ensures Backtrack(s, n, lit) == 0
  {
    if n > 0 {
      assert s[n - 1..][0] == s[n - 1];
      NoneShorter(s, n - 1, lit);
    }
    if n < DigitRun(s) {
      assert s[n..][0] == s[n];
    }
  }

  lemma {:induction false} PassNumber(a: string, rest: string, lit: string)
    requires Digits(a) && rest != "" && !IsDigit(rest[0])
    requires lit != "" && !IsDigit(lit[0]) && !StartsWith(rest, lit)
    ensures NumbersBefore(a + rest, lit) == NumbersBefore(rest, lit)
  {
    var s := a + rest;
    RunOfDigits(a, rest);
    assert s[|a|..] == rest;
    NoneShorter(s, |a|, lit);
    assert s[1..] == a[1..] + rest;
    if |a| > 1 { PassNumber(a[1..], rest, lit); }
    else { assert s[1..] == rest; }
  }

  lemma TakeNumber(a: string, rest: string, lit: string)
    requires Digits(a) && lit != "" && !IsDigit(lit[0]) && StartsWith(rest, lit)
    ensures NumbersBefore(a + rest, lit) == [a] + NumbersBefore(rest, lit)
  {
    var s := a + rest;
    assert rest[0] == lit[0];
    RunOfDigits(a, rest);
    assert s[|a|..] == rest && s[..|a|] == a;
  }

  lemma {:induction false} NumbersOfFields(h: string, p: string, s: string, t: string, m: string, f: string,
      e: string, lit: string)
    requires Digits(p) && Digits(t) && Digits(f) && NoDigits(h) && NoDigits(s) && NoDigits(m) && NoDigits(e)
    requires s != "" && m != "" && e != "" && lit != "" && !IsDigit(lit[0])
    ensures NumbersBefore(h + (p + (s + (t + (m + (f + e))))), lit) ==
      (if StartsWith(s + (t + (m + (f + e))), lit) then [p] else []) +
      (if StartsWith(m + (f + e), lit) then [t] else []) + (if StartsWith(e, lit) then [f] else [])
  {
    hide NumbersBefore, StartsWith;
    var r2 := m + (f + e);
    var r1 := s + (t + r2);
    NumbersOfField(h, p, r1, lit);
    NumbersOfField(s, t, r2, lit);
    NumbersOfField(m, f, e, lit);
    PassOver(e, "", lit);
    assert e + "" == e;
    assert NumbersBefore("", lit) == [] by { NoNumbers(lit); }
  }

  lemma NoNumbers(lit: string)
    ensures NumbersBefore("", lit) == []
  {
  }

  lemma NumbersOfField(h: string, a: string, rest: string, lit: string)
    requires NoDigits(h) && Digits(a) && rest != "" && !IsDigit(rest[0]) && lit != "" && !IsDigit(lit[0])
    ensures NumbersBefore(h + (a + rest), lit) == (if StartsWith(rest, lit) then [a] else []) + NumbersBefore(rest, lit)
  {
    PassOver(h, a + rest, lit);
    if StartsWith(rest, lit) { TakeNumber(a, rest, lit); } else { PassNumber(a, rest, lit); }
  }

  lemma Starts(s: string, rest: string)
    ensures StartsWith(s + rest, s)
  {
  }

  lemma StartsNot(s: string, rest: string, lit: string, k: nat)
    requires k < |s| && k < |lit| && s[k] != lit[k]
    ensures !StartsWith(s + rest, lit)
  {
    if |lit| <= |s + rest| {
      assert (s + rest)[..|lit|][k] == s[k];
    }
  }

  /** Each look-ahead pattern takes exactly its own count out of a RESULTS text. */
  lemma FieldsOfText(p: string, t: string, f: string)
    requires Digits(p) && Digits(t) && Digits(f)
    ensures NumbersBefore(Text(p, t, f), SLASH) == [p]
    ensures NumbersBefore(Text(p, t, f), PASSED) == [t]
    ensures NumbersBefore(Text(p, t, f), FAILED) == [f]
  {
    hide NumbersBefore, StartsWith, Digits;
    var m := PASSED + COMMA;
    var r2 := m + (f + FAILED);
    var r1 := SLASH + (t + r2);
    assert Text(p, t, f) == HEAD + (p + r1) by { assert PASSED + (COMMA + (f + FAILED)) == r2; }
    Literals();
    NumbersOfFields(HEAD, p, SLASH, t, m, f, FAILED, SLASH);
    NumbersOfFields(HEAD, p, SLASH, t, m, f, FAILED, PASSED);
    NumbersOfFields(HEAD, p, SLASH, t, m, f, FAILED, FAILED);
    Starts(SLASH, t + r2);
    StartsNot(m, f + FAILED, SLASH, 0);
    StartsNot(FAILED, "", SLASH, 0);
    StartsNot(SLASH, t + r2, PASSED, 0);
    Starts(PASSED, COMMA + (f + FAILED));
    StartsNot(FAILED, "", PASSED, 1);
    StartsNot(SLASH, t + r2, FAILED, 0);
    StartsNot(m, f + FAILED, FAILED, 1);
    Starts(FAILED, "");
    assert FAILED + "" == FAILED && PASSED + (COMMA + (f + FAILED)) == r2;
  }

  lemma Literals()
    ensures NoDigits(HEAD) && NoDigits(SLASH) && NoDigits(PASSED + COMMA) && NoDigits(FAILED)
    ensures SLASH[0] == '/' && PASSED[0] == ' ' && PASSED[1] == 'p' && FAILED[0] == ' ' && FAILED[1] == 'f'
    ensures PASSED[0] == (PASSED + COMMA)[0] && PASSED[1] == (PASSED + COMMA)[1]
  {
  }
}
