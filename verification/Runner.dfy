/** The on-target runner's counting loop and the host's reading of its log. */
module Runner {
  import opened Results

  /** A test binary and what it does: its exit status under timeout and without it. */
  datatype Test = Test(name: string, executable: bool, rc: nat, plainRc: nat)

  predicate Succeeds(t: Test) {
    t.rc == 0 || (t.rc == 127 && t.name == "timeout" && t.plainRc == 0)
  }

  function Ran(tests: seq<Test>): seq<Test> {
    if tests == [] then []
    else Ran(tests[..|tests| - 1]) + if tests[|tests| - 1].executable then [tests[|tests| - 1]] else []
  }

  function Passing(tests: seq<Test>): nat {
    if tests == [] then 0
    else Passing(tests[..|tests| - 1]) + if tests[|tests| - 1].executable && Succeeds(tests[|tests| - 1]) then 1 else 0
  }

  function Skipped(tests: seq<Test>): nat {
    if tests == [] then 0 else Skipped(tests[..|tests| - 1]) + if tests[|tests| - 1].executable then 0 else 1
  }

  /** The loop, with the branches of the script; last is the line it ends with. */
  method RunAll(tests: seq<Test>) returns (total: nat, passed: nat, failed: nat, last: string)
    ensures total == |Ran(tests)| && passed == Passing(tests) && passed + failed == total
    ensures last == Printed(passed, total, failed)
  {
    total, passed, failed := 0, 0, 0;
    var i := 0;
    while i < |tests|
      invariant i <= |tests|
      invariant total == |Ran(tests[..i])| && passed == Passing(tests[..i]) && passed + failed == total
    {
      var t := tests[i];
      assert tests[..i + 1][..i] == tests[..i];
      if t.executable {
        total := total + 1;
        if t.rc == 0 {
          passed := passed + 1;
        } else if t.rc == 127 && t.name == "timeout" {
          if t.plainRc == 0 {
            passed := passed + 1;
          } else {
            failed := failed + 1;
          }
        } else if t.rc >= 128 {
          failed := failed + 1;
        } else {
          failed := failed + 1;
        }
      }
      i := i + 1;
    }
    assert tests[..|tests|] == tests;
    last := "  RESULTS: " + Decimal(passed) + "/" + Decimal(total) + " passed, " + Decimal(failed) + " failed";
    Layout(Decimal(passed), Decimal(total), Decimal(failed));
  }

  lemma Layout(p: string, t: string, f: string)
    ensures "  RESULTS: " + p + "/" + t + " passed, " + f + " failed" == "  " + Text(p, t, f)
  {
    assert "  RESULTS: " == "  " + HEAD && " passed, " == PASSED + COMMA;
  }

  // The host's side.

  /** Every RESULTS text of a log, line by line. */
  function Found(log: seq<string>): seq<string> {
    if log == [] then [] else Found(log[..|log| - 1]) + TextsIn(log[|log| - 1])
  }

  /** The lines a look-ahead pattern leaves of the texts. */
  function Taken(texts: seq<string>, lit: string): seq<string> {
    if texts == [] then [] else Taken(texts[..|texts| - 1], lit) + NumbersBefore(texts[|texts| - 1], lit)
  }

  /** A count is a number only if the pattern left a single line. */
  datatype Parsed = NoLine | Garbled | Counts(passed: string, total: string, failed: string)

  function OrZero(lines: seq<string>): seq<string> {
    if lines == [] then ["0"] else lines
  }

  function Parse(log: seq<string>): Parsed {
    var texts := Found(log);
    var p, t, f := OrZero(Taken(texts, SLASH)), OrZero(Taken(texts, PASSED)), OrZero(Taken(texts, FAILED));
    if texts == [] then NoLine
    else if |p| == |t| == |f| == 1 then Counts(p[0], t[0], f[0])
    else Garbled
  }

  lemma {:induction false} FoundAreTexts(log: seq<string>)
    ensures forall i | 0 <= i < |Found(log)| :: IsText(Found(log)[i])
  {
    if log != [] {
      FoundAreTexts(log[..|log| - 1]);
      TextsAreTexts(log[|log| - 1]);
    }
  }

  /** Each text yields one line for each pattern. */
  lemma {:induction false} OneEach(texts: seq<string>)
    requires forall i | 0 <= i < |texts| :: IsText(texts[i])
    ensures |Taken(texts, SLASH)| == |Taken(texts, PASSED)| == |Taken(texts, FAILED)| == |texts|
  {
    if texts != [] {
      OneEach(texts[..|texts| - 1]);
      var p, t, f :| Digits(p) && Digits(t) && Digits(f) && texts[|texts| - 1] == Text(p, t, f);
      FieldsOfText(p, t, f);
    }
  }

  /** Quiet lines add nothing; any other line adds a text. */
  lemma {:induction false} QuietLines(log: seq<string>)
    ensures Found(log) == [] <==> forall j | 0 <= j < |log| :: TextsIn(log[j]) == []
  {
    hide TextsIn;
    if log != [] {
      QuietLines(log[..|log| - 1]);
      assert forall j | 0 <= j < |log| - 1 :: log[..|log| - 1][j] == log[j];
    }
  }

  lemma {:induction false} FoundConcat(a: seq<string>, b: seq<string>)
    ensures Found(a + b) == Found(a) + Found(b)
  {
    hide TextsIn;
    if b == [] {
      assert a + b == a;
    } else {
      assert (a + b)[..|a + b| - 1] == a + b[..|b| - 1];
      FoundConcat(a, b[..|b| - 1]);
    }
  }

  /** A log that holds the printed line gives the printed numbers exactly when no other line
      holds a RESULTS text; otherwise no number comes out. */
  lemma {:induction false} ParseExactly(before: seq<string>, after: seq<string>, p: nat, t: nat, f: nat)
    ensures Parse(before + [Printed(p, t, f)] + after) ==
      if (forall j | 0 <= j < |before| :: TextsIn(before[j]) == []) &&
        (forall j | 0 <= j < |after| :: TextsIn(after[j]) == [])
      then Counts(Decimal(p), Decimal(t), Decimal(f)) else Garbled
  {
    hide Text, Printed, TextsIn, NumbersBefore, Decimal, Digits, IsText;
    var line, log := Printed(p, t, f), before + [Printed(p, t, f)] + after;
    var x := Text(Decimal(p), Decimal(t), Decimal(f));
    PrintedFound(p, t, f);
    FoundConcat(before, [line]);
    FoundConcat(before + [line], after);
    assert [line][..0] == [] && Found([line]) == [x];
    assert Found(log) == Found(before) + [x] + Found(after);
    QuietLines(before);
    QuietLines(after);
    FoundAreTexts(log);
    OneEach(Found(log));
    FieldsOfText(Decimal(p), Decimal(t), Decimal(f));
    if Found(before) == [] && Found(after) == [] {
      assert Found(log) == [x] && [x][..0] == [];
    }
  }

  /** The tally the host keeps: passed, failed and skipped. */
  datatype Tally = Tally(pass: nat, fail: nat, skip: int)

  function TallyOf(counts: Parsed, discovered: nat): Tally
    requires counts.Counts? && Digits(counts.passed) && Digits(counts.total) && Digits(counts.failed)
  {
    Tally(Value(counts.passed), Value(counts.failed), discovered - Value(counts.total))
  }

  lemma {:induction false} RanOrSkipped(tests: seq<Test>)
    ensures |Ran(tests)| + Skipped(tests) == |tests|
    ensures forall i | 0 <= i < |tests| :: tests[i].executable ==> tests[i] in Ran(tests)
  {
    if tests != [] {
      RanOrSkipped(tests[..|tests| - 1]);
      assert forall i | 0 <= i < |tests| - 1 :: tests[..|tests| - 1][i] == tests[i];
    }
  }

  /** End to end: from the counts the loop prints, the host's tally is what happened to the
      tests, and it accounts for each of them once. */
  lemma {:induction false} Accounting(tests: seq<Test>, before: seq<string>, after: seq<string>, failed: nat)
    requires Passing(tests) + failed == |Ran(tests)|
    requires forall j | 0 <= j < |before| :: TextsIn(before[j]) == []
    requires forall j | 0 <= j < |after| :: TextsIn(after[j]) == []
    ensures var counts := Parse(before + [Printed(Passing(tests), |Ran(tests)|, failed)] + after);
      counts == Counts(Decimal(Passing(tests)), Decimal(|Ran(tests)|), Decimal(failed)) &&
      TallyOf(counts, |tests|) == Tally(Passing(tests), failed, Skipped(tests)) &&
      TallyOf(counts, |tests|).pass + TallyOf(counts, |tests|).fail + TallyOf(counts, |tests|).skip == |tests|
  {
    hide Decimal, TextsIn, Printed, Text;
    ParseExactly(before, after, Passing(tests), |Ran(tests)|, failed);
    DecimalValue(Passing(tests));
    DecimalValue(|Ran(tests)|);
    DecimalValue(failed);
    RanOrSkipped(tests);
  }

  // Verdicts.

  /** The phase reports success when nothing failed and something ran; the script's exit
      status only asks whether anything failed. */
  predicate PhaseOk(total: nat, failed: nat) {
    failed == 0 && total > 0
  }

  predicate ExitsZero(failed: nat) {
    failed == 0
  }

  lemma {:induction false} PassingIsAll(tests: seq<Test>)
    ensures Passing(tests) <= |Ran(tests)|
    ensures Passing(tests) == |Ran(tests)| <==>
      forall i | 0 <= i < |tests| :: tests[i].executable ==> Succeeds(tests[i])
  {
    if tests != [] {
      PassingIsAll(tests[..|tests| - 1]);
      assert forall i | 0 <= i < |tests| - 1 :: tests[..|tests| - 1][i] == tests[i];
    }
  }

  /** The exit status is zero exactly when no executed test failed.  The two verdicts differ
      exactly when no binary was executable: then the phase reports failure and the script
      still exits with zero. */
  lemma {:induction false} VerdictsDiffer(tests: seq<Test>, failed: nat)
    requires Passing(tests) + failed == |Ran(tests)|
    ensures ExitsZero(failed) <==> forall i | 0 <= i < |tests| :: tests[i].executable ==> Succeeds(tests[i])
    ensures PhaseOk(|Ran(tests)|, failed) != ExitsZero(failed) <==> forall i | 0 <= i < |tests| :: !tests[i].executable
  {
    PassingIsAll(tests);
    NothingRan(tests);
  }

  lemma {:induction false} NothingRan(tests: seq<Test>)
    ensures |Ran(tests)| == 0 <==> forall i | 0 <= i < |tests| :: !tests[i].executable
  {
    if tests != [] {
      NothingRan(tests[..|tests| - 1]);
      assert forall i | 0 <= i < |tests| - 1 :: tests[..|tests| - 1][i] == tests[i];
    }
  }

  /** A test that prints a RESULTS line of its own spoils the counts, even the true ones. */
  lemma SecondLineGarbles(p: nat, t: nat, f: nat)
    ensures Parse(["RESULTS: 1/1 passed, 0 failed", Printed(p, t, f)]) == Garbled
  {
    hide Text, Printed, TextsIn, NumbersBefore, Decimal;
    var own := "RESULTS: 1/1 passed, 0 failed";
    OwnLineFound(own);
    assert [own, Printed(p, t, f)] == [own] + [Printed(p, t, f)] + [];
    ParseExactly([own], [], p, t, f);
    assert TextsIn([own][0]) != [];
  }

  lemma OwnLineFound(line: string)
    requires line == "RESULTS: 1/1 passed, 0 failed"
    ensures TextsIn(line) != []
  {
    hide Text, Literal, Number;
    assert Digits("1") && Digits("0");
    assert line == Text("1", "1", "0") by { OwnLine(); }
    TextFound("1", "1", "0", "");
    assert line + "" == line;
  }

  lemma OwnLine()
    ensures Text("1", "1", "0") == "RESULTS: 1/1 passed, 0 failed"
  {
  }

  /** With nothing executable the phase reports failure and the script still exits with zero;
      with one test that succeeds both are content, with one that fails neither is. */
  lemma VerdictExamples(name: string, rc: nat)
    requires rc != 0 && rc != 127
    ensures var none := [Test(name, false, rc, 0)];
      Passing(none) == |Ran(none)| == 0 && !PhaseOk(0, 0) && ExitsZero(0)
    ensures var good := [Test(name, true, 0, 0)];
      Passing(good) == |Ran(good)| == 1 && PhaseOk(1, 0) && ExitsZero(0)
    ensures var bad := [Test(name, true, rc, 0)];
      Passing(bad) == 0 && |Ran(bad)| == 1 && !PhaseOk(1, 1) && !ExitsZero(1)
  {
    assert [Test(name, false, rc, 0)][..0] == [];
    assert [Test(name, true, 0, 0)][..0] == [];
    assert [Test(name, true, rc, 0)][..0] == [];
  }
}
