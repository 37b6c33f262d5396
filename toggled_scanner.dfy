/** The day-3 part-2 scanner: besides `mul(a,b)`, the text holds `do()` and
    `don't()`, which switch the adding of products on and off. The switch
    is carried from each line into the next. */
module ToggledScanner {
  import opened Results
  import opened MulSyntax

  datatype Instruction = Mul | Do | Dont

  /** `From<&str> for Instruction`: the instruction a matched literal names;
      any other text is the unreachable case. */
  function FromLiteral(s: string): (r: Option<Instruction>)
    ensures r.Some? ==> 3 <= |s| <= 7 && (s[0] == 'm' || s[0] == 'd')
  {
    if s == "mul" then Some(Mul)
    else if s == "do()" then Some(Do)
    else if s == "don't()" then Some(Dont)
    else None
  }

  /** The text of each instruction: the literal that `From<&str>` turns
      back into it. */
  function Literal(i: Instruction): (r: string)
    ensures FromLiteral(r) == Some(i)
    ensures |r| >= 3 && (r[0] == 'm' || r[0] == 'd')
  {
    match i
    case Mul => "mul"
    case Do => "do()"
    case Dont => "don't()"
  }

  /** The literals in the order in which the scanner tries them. */
  const Instructions: seq<Instruction> := [Mul, Do, Dont]

  /** The instruction whose literal begins `s`, trying them in order. */
  function InstructionAt(s: string): (r: Option<Instruction>)
    ensures r.Some? ==> Literal(r.value) <= s
    ensures r.None? <==> forall i: Instruction :: !(Literal(i) <= s)
  {
    if Literal(Mul) <= s then Some(Mul)
    else if Literal(Do) <= s then Some(Do)
    else if Literal(Dont) <= s then Some(Dont)
    else None
  }

  /** Text that `From<&str>` accepts is read by the scanner as the same
      instruction. */
  lemma FromLiteralAgrees(s: string)
    ensures FromLiteral(s).Some? ==> InstructionAt(s) == FromLiteral(s)
  {
    if s == "do()" {
      assert s[0] != Literal(Mul)[0];
    } else if s == "don't()" {
      assert s[0] != Literal(Mul)[0] && s[2] != Literal(Do)[2];
    }
  }

  /** Only 'm' and 'd' can begin an instruction. */
  lemma InstructionInitial(s: string)
    requires |s| > 0 && s[0] != 'm' && s[0] != 'd'
    ensures InstructionAt(s).None?
  {
    assert s[0] == s[..1][0];
  }

  /** `t` is a suffix of `s`, reached by passing only positions at which no
      instruction begins. */
  predicate Quiet(s: string, t: string)
    decreases |s|
  {
    if |s| <= |t| then s == t
    else InstructionAt(s).None? && Quiet(s[1..], t)
  }

  /** What `scan_for_next_instruction` finds: the instruction at the
      earliest offset and the text after its literal, or the empty text when
      no instruction occurs. */
  function NextInstruction(input: string): (r: Result<(Instruction, string), string>)
    ensures r.Ok? ==> |r.value.1| < |input| && Quiet(input, Literal(r.value.0) + r.value.1)
    ensures r.Err? ==> r.error == [] && Quiet(input, [])
    decreases |input|
  {
    if input == [] then Err([])
    else match InstructionAt(input)
      case Some(i) =>
        assert input == Literal(i) + input[|Literal(i)|..];
        Ok((i, input[|Literal(i)|..]))
      case None => NextInstruction(input[1..])
  }

  /** Passing quietly means: a suffix before which no instruction begins. */
  lemma {:induction false} QuietMeansNoEarlierInstruction(s: string, t: string)
    requires Quiet(s, t)
    ensures |t| <= |s| && s[|s| - |t|..] == t
    ensures forall k | 0 <= k < |s| - |t| :: InstructionAt(s[k..]).None?
    decreases |s|
  {
    if |s| > |t| {
      QuietMeansNoEarlierInstruction(s[1..], t);
      assert s[1..][|s| - 1 - |t|..] == s[|s| - |t|..];
      forall k | 0 <= k < |s| - |t|
        ensures InstructionAt(s[k..]).None?
      {
        if k > 0 {
          assert s[1..][k - 1..] == s[k..];
        } else {
          assert s[0..] == s;
        }
      }
    } else {
      assert s[|s| - |t|..] == s;
    }
  }

  /** `scan_for_next_instruction`: try each literal at the current position,
      then move on by one character. */
  method ScanForNextInstruction(input: string) returns (r: Result<(Instruction, string), string>)
    ensures r == NextInstruction(input)
  {
    var remaining := input;
    while |input| > 0
      invariant NextInstruction(remaining) == NextInstruction(input)
      decreases |remaining|
    {
      for j := 0 to |Instructions|
        invariant forall k | 0 <= k < j :: !(Literal(Instructions[k]) <= remaining)
      {
        var instruction := Instructions[j];
        if Literal(instruction) <= remaining {
          FirstLiteralFound(remaining, j);
          r := Ok((instruction, remaining[|Literal(instruction)|..]));
          return;
        }
      }
      if |remaining| == 0 {
        r := Err([]);
        return;
      }
      NoLiteralFound(remaining);
      remaining := remaining[1..];
    }
    r := Err([]);
  }

  /** The first literal, in the scanner's order, that begins the text is
      the instruction found there. */
  lemma FirstLiteralFound(s: string, j: nat)
    requires j < |Instructions| && Literal(Instructions[j]) <= s
    requires forall k | 0 <= k < j :: !(Literal(Instructions[k]) <= s)
    ensures NextInstruction(s) == Ok((Instructions[j], s[|Literal(Instructions[j])|..]))
  {
    assert Instructions[0] == Mul && Instructions[1] == Do && Instructions[2] == Dont;
    assert InstructionAt(s) == Some(Instructions[j]);
  }

  /** When no literal begins the text, the scan moves on by one character. */
  lemma NoLiteralFound(s: string)
    requires |s| > 0
    requires forall k | 0 <= k < |Instructions| :: !(Literal(Instructions[k]) <= s)
    ensures NextInstruction(s) == NextInstruction(s[1..])
  {
    assert Instructions[0] == Mul && Instructions[1] == Do && Instructions[2] == Dont;
    assert InstructionAt(s).None?;
  }

  /** The switch and the sum after reading `s` with the switch at `enabled`,
      as a reference definition over every position of `s`: `do()` switches
      on, `don't()` switches off, and a well-formed `mul(a,b)` adds `a*b`
      when the switch is on. */
  function PositionTotal(enabled: bool, s: string): (bool, int)
    decreases |s|
  {
    if s == [] then (enabled, 0)
    else
      match InstructionAt(s)
      case Some(Mul) => Adds(if enabled then MulValueAt(s) else 0, PositionTotal(enabled, s[1..]))
      case Some(Do) => PositionTotal(true, s[1..])
      case Some(Dont) => PositionTotal(false, s[1..])
      case None => PositionTotal(enabled, s[1..])
  }

  /** A total with `amount` added to its sum. */
  function Adds(amount: int, total: (bool, int)): (r: (bool, int))
    ensures r.0 == total.0 && r.1 - total.1 == amount
  {
    (total.0, amount + total.1)
  }

  /** Positions at which no instruction begins change nothing. */
  lemma {:induction false} QuietPositionsChangeNothing(enabled: bool, s: string, t: string)
    requires Quiet(s, t)
    ensures PositionTotal(enabled, s) == PositionTotal(enabled, t)
    decreases |s|
  {
    if |s| > |t| {
      QuietPositionsChangeNothing(enabled, s[1..], t);
    }
  }

  /** Argument characters begin no instruction. */
  lemma {:induction false} SkippedArgumentsAreQuiet(s: string, t: string)
    requires SkipsArgChars(s, t)
    ensures Quiet(s, t)
    decreases |s|
  {
    if |s| > |t| {
      assert IsArgChar(s[0]);
      InstructionInitial(s);
      SkippedArgumentsAreQuiet(s[1..], t);
    }
  }

  /** No instruction begins inside a literal after its first letter. */
  lemma {:induction false} InsideLiteralIsQuiet(s: string, n: nat)
    requires n <= |s|
    requires forall k | 0 <= k < n :: s[k] != 'm' && s[k] != 'd'
    ensures Quiet(s, s[n..])
    decreases n
  {
    if n > 0 {
      InstructionInitial(s);
      assert s[1..][n - 1..] == s[n..];
      InsideLiteralIsQuiet(s[1..], n - 1);
    }
  }

  /** What an instruction at the front of the text does to the total:
      `do()` and `don't()` set the switch whatever it was, and `mul` adds its
      product only when the switch is on. */
  lemma LiteralTotal(enabled: bool, i: Instruction, s: string)
    requires Literal(i) <= s
    ensures PositionTotal(enabled, s) == match i
      case Mul => Adds(if enabled then MulValueAt(s) else 0, PositionTotal(enabled, s[3..]))
      case Do => PositionTotal(true, s[4..])
      case Dont => PositionTotal(false, s[7..])
  {
    var n := |Literal(i)|;
    assert s[..n] == Literal(i);
    match i {
      case Mul =>
      case Do => assert s[0] == 'd' && !(Literal(Mul) <= s);
      case Dont => assert s[0] == 'd' && s[2] == 'n' && !(Literal(Mul) <= s) && !(Literal(Do) <= s);
    }
    assert InstructionAt(s) == Some(i);
    assert s[1..][n - 1..] == s[n..];
    InsideLiteralIsQuiet(s[1..], n - 1);
    QuietPositionsChangeNothing(if i == Mul then enabled else i == Do, s[1..], s[n..]);
  }

  /** Resuming where a failed argument list stopped gives the same total as
      resuming right after `mul`: the characters in between begin no
      instruction. */
  lemma ResumePointIrrelevant(enabled: bool, afterMul: string)
    requires HandleMultInstruction(afterMul).Err?
    ensures PositionTotal(enabled, afterMul) == PositionTotal(enabled, HandleMultInstruction(afterMul).error)
  {
    HandleMultResumePoint(afterMul);
    SkippedArgumentsAreQuiet(afterMul, CallArguments(afterMul).error);
    QuietPositionsChangeNothing(enabled, afterMul, CallArguments(afterMul).error);
  }

  /** After a well-formed argument list the total goes on just after `)`. */
  lemma ResumeAfterCall(enabled: bool, afterMul: string)
    requires HandleMultInstruction(afterMul).Ok?
    ensures PositionTotal(enabled, afterMul) == PositionTotal(enabled, HandleMultInstruction(afterMul).value.1)
  {
    var next := CallArguments(afterMul).value.1;
    HandleMultResumePoint(afterMul);
    SkippedArgumentsAreQuiet(afterMul, [')'] + next);
    QuietPositionsChangeNothing(enabled, afterMul, [')'] + next);
    InsideLiteralIsQuiet([')'] + next, 1);
    assert ([')'] + next)[1..] == next;
    QuietPositionsChangeNothing(enabled, [')'] + next, next);
  }

  /** Lines 115-127 followed by line 129-130 keep the reference total:
      one instruction is read and acted upon, and the text it resumes at
      carries the rest of the total. */
  lemma MulStep(enabled: bool, remaining: string, afterMul: string)
    requires NextInstruction(remaining) == Ok((Mul, afterMul))
    ensures var call := HandleMultInstruction(afterMul);
            call.Ok? ==> PositionTotal(enabled, remaining)
                         == Adds(if enabled then call.value.0 else 0, PositionTotal(enabled, call.value.1))
    ensures var call := HandleMultInstruction(afterMul);
            call.Err? ==> PositionTotal(enabled, remaining) == PositionTotal(enabled, call.error)
  {
    var s := Literal(Mul) + afterMul;
    assert PositionTotal(enabled, remaining) == PositionTotal(enabled, s) by {
      QuietPositionsChangeNothing(enabled, remaining, s);
    }
    assert PositionTotal(enabled, s) == Adds(if enabled then MulValueAt(s) else 0, PositionTotal(enabled, afterMul)) by {
      LiteralTotal(enabled, Mul, s);
      assert s[3..] == afterMul;
    }
    var call := HandleMultInstruction(afterMul);
    if call.Ok? {
      assert PositionTotal(enabled, afterMul) == PositionTotal(enabled, call.value.1) by {
        ResumeAfterCall(enabled, afterMul);
      }
      assert MulValueAt(s) == call.value.0;
    } else {
      assert MulValueAt(s) == 0;
      assert PositionTotal(enabled, afterMul) == PositionTotal(enabled, call.error) by {
        ResumePointIrrelevant(enabled, afterMul);
      }
    }
  }

  lemma ToggleStep(enabled: bool, remaining: string, i: Instruction, next: string)
    requires i != Mul && NextInstruction(remaining) == Ok((i, next))
    ensures PositionTotal(enabled, remaining) == PositionTotal(i == Do, next)
  {
    var s := Literal(i) + next;
    QuietPositionsChangeNothing(enabled, remaining, s);
    LiteralTotal(enabled, i, s);
    assert s[|Literal(i)|..] == next;
  }

  lemma NoInstructionStep(enabled: bool, remaining: string)
    requires NextInstruction(remaining).Err?
    ensures PositionTotal(enabled, remaining) == (enabled, 0)
  {
    QuietPositionsChangeNothing(enabled, remaining, []);
  }

  /** Lines 115-127: act on the instruction found. `do()` and `don't()` set
      the switch whatever it was; `mul` leaves it and yields the product of a
      well-formed call. Also returns the text to resume at: after the call,
      where its argument list stopped matching, or after the literal. */
  function ApplyInstruction(enabled: bool, scanned: Result<(Instruction, string), string>): (r: (bool, int, string))
    ensures scanned.Ok? && scanned.value.0 == Do ==> r.0
    ensures scanned.Ok? && scanned.value.0 == Dont ==> !r.0
    ensures scanned.Err? || scanned.value.0 == Mul ==> r.0 == enabled
    ensures r.1 != 0 ==> scanned.Ok? && scanned.value.0 == Mul && HandleMultInstruction(scanned.value.1).Ok?
  {
    match scanned
    case Ok((Mul, rest)) =>
      (match HandleMultInstruction(rest)
       case Ok((product, next)) => (enabled, product, next)
       case Err(next) => (enabled, 0, next))
    case Ok((Do, rest)) => (true, 0, rest)
    case Ok((Dont, rest)) => (false, 0, rest)
    case Err(rest) => (enabled, 0, rest)
  }

  /** One turn of the loop keeps the reference total and shortens the text. */
  lemma InstructionStep(enabled: bool, remaining: string) returns (enabledAfter: bool, amount: int, next: string)
    requires |remaining| > 0
    ensures (enabledAfter, amount, next) == ApplyInstruction(enabled, NextInstruction(remaining))
    ensures |next| < |remaining|
    ensures PositionTotal(enabled, remaining) == Adds(if enabledAfter then amount else 0, PositionTotal(enabledAfter, next))
  {
    enabledAfter, amount, next := ApplyInstruction(enabled, NextInstruction(remaining)).0,
      ApplyInstruction(enabled, NextInstruction(remaining)).1, ApplyInstruction(enabled, NextInstruction(remaining)).2;
    match NextInstruction(remaining)
    case Ok((Mul, r)) =>
      MulStep(enabled, remaining, r);
    case Ok((i, r)) =>
      ToggleStep(enabled, remaining, i, r);
    case Err(r) =>
      NoInstructionStep(enabled, remaining);
  }

  /** The loop invariant of `sum_multiplications` survives one turn. */
  lemma LoopStep(total: (bool, int), result: int, enabled: bool, remaining: string)
    returns (enabledAfter: bool, amount: int, next: string)
    requires |remaining| > 0 && total == Adds(result, PositionTotal(enabled, remaining))
    ensures (enabledAfter, amount, next) == ApplyInstruction(enabled, NextInstruction(remaining))
    ensures |next| < |remaining|
    ensures total == Adds(if enabledAfter then result + amount else result, PositionTotal(enabledAfter, next))
  {
    enabledAfter, amount, next := InstructionStep(enabled, remaining);
    KeepsTotal(total, result, PositionTotal(enabled, remaining), enabledAfter, amount, PositionTotal(enabledAfter, next));
  }

  lemma KeepsTotal(total: (bool, int), result: int, before: (bool, int), enabled: bool, amount: int, after: (bool, int))
    requires total == Adds(result, before)
    requires before == Adds(if enabled then amount else 0, after)
    ensures total == Adds(if enabled then result + amount else result, after)
  {
  }

  /** `sum_multiplications`: read instructions one after another, switching
      on `do()` and `don't()` and adding the products of well-formed calls
      while the switch is on. Returns the switch as it is at the end. */
  method SumMultiplications(enabled: bool, input: string) returns (enabledAfter: bool, result: int)
    ensures (enabledAfter, result) == PositionTotal(enabled, input)
  {
    enabledAfter := enabled;
    var remaining := input;
    result := 0;
    ghost var total := PositionTotal(enabled, input);
    while |remaining| > 0
      invariant total == Adds(result, PositionTotal(enabledAfter, remaining))
      decreases |remaining|
    {
      var scanned := ScanForNextInstruction(remaining);
      var step := ApplyInstruction(enabledAfter, scanned);
      ghost var e, a, n := LoopStep(total, result, enabledAfter, remaining);
      assert step == (e, a, n);
      ghost var sum := if e then result + a else result;
      assert total == Adds(sum, PositionTotal(e, n));
      var addThisToSum, newRemaining := step.1, step.2;
      enabledAfter := step.0;
      if enabledAfter {
        result := result + addThisToSum;
      }
      remaining := newRemaining;
      assert result == sum && enabledAfter == e && remaining == n;
    }
  }

  /** Text in which no instruction begins leaves the switch as it was and
      adds nothing. */
  lemma {:induction false} NoInstructionNoEffect(enabled: bool, s: string)
    requires forall k | 0 <= k <= |s| :: InstructionAt(s[k..]).None?
    ensures PositionTotal(enabled, s) == (enabled, 0)
    decreases |s|
  {
    if s != [] {
      assert s[0..] == s;
      forall k | 0 <= k <= |s[1..]|
        ensures InstructionAt(s[1..][k..]).None?
      {
        assert s[1..][k..] == s[k + 1..];
      }
      NoInstructionNoEffect(enabled, s[1..]);
    }
  }

  /** While the switch is off, text without `do()` adds nothing, and the
      switch is still off at its end. */
  lemma {:induction false} DisabledWithoutDoAddsNothing(s: string)
    requires forall k | 0 <= k <= |s| :: !(Literal(Do) <= s[k..])
    ensures PositionTotal(false, s) == (false, 0)
    decreases |s|
  {
    if s != [] {
      forall k | 0 <= k <= |s[1..]|
        ensures !(Literal(Do) <= s[1..][k..])
      {
        assert s[1..][k..] == s[k + 1..];
      }
      assert s[0..] == s;
      DisabledWithoutDoAddsNothing(s[1..]);
    }
  }

  /** The total of lines read one after another, the switch of each line
      carried into the next. */
  function LinesTotal(enabled: bool, lines: seq<string>): (bool, int) {
    if lines == [] then (enabled, 0)
    else
      var before := LinesTotal(enabled, lines[..|lines| - 1]);
      Adds(before.1, PositionTotal(before.0, lines[|lines| - 1]))
  }

  /** The switch at the end of one block of lines is the switch at the start
      of the next. */
  lemma {:induction false} LinesTotalAppend(enabled: bool, a: seq<string>, b: seq<string>)
    ensures var first := LinesTotal(enabled, a);
            LinesTotal(enabled, a + b) == Adds(first.1, LinesTotal(first.0, b))
    decreases |b|
  {
    if b == [] {
      assert a + b == a;
    } else {
      var first := LinesTotal(enabled, a);
      var init, last := b[..|b| - 1], b[|b| - 1];
      assert a + b == (a + init) + [last];
      var before := LinesTotal(enabled, a + init);
      assert before == Adds(first.1, LinesTotal(first.0, init)) by {
        LinesTotalAppend(enabled, a, init);
      }
      assert LinesTotal(enabled, a + b) == Adds(before.1, PositionTotal(before.0, last)) by {
        LinesTotalLast(enabled, a + init, last);
      }
      assert LinesTotal(first.0, b) == Adds(LinesTotal(first.0, init).1, PositionTotal(before.0, last)) by {
        LinesTotalLast(first.0, init, last);
      }
    }
  }

  /** One more line continues from the switch the earlier lines left. */
  lemma LinesTotalLast(enabled: bool, lines: seq<string>, last: string)
    ensures var before := LinesTotal(enabled, lines);
            LinesTotal(enabled, lines + [last]) == Adds(before.1, PositionTotal(before.0, last))
  {
    assert (lines + [last])[..|lines|] == lines;
  }

  /** The loop of `main`, over lines that have already been read: the switch
      starts on and is handed from each line to the next. */
  method SumLines(lines: seq<string>) returns (result: int)
    ensures result == LinesTotal(true, lines).1
  {
    result := 0;
    var enabled := true;
    for i := 0 to |lines|
      invariant (enabled, result) == LinesTotal(true, lines[..i])
    {
      var newEnabled, lineResult := SumMultiplications(enabled, lines[i]);
      assert LinesTotal(true, lines[..i + 1]) == Adds(result, (newEnabled, lineResult)) by {
        assert lines[..i + 1] == lines[..i] + [lines[i]];
        LinesTotalLast(true, lines[..i], lines[i]);
      }
      result := result + lineResult;
      enabled := newEnabled;
    }
    assert lines[..|lines|] == lines;
  }

  /** A well-formed call written out character by character adds its
      product when the switch is on. */
  lemma CallTextTotal(enabled: bool, x: char, y: char, rest: string)
    requires IsDigit(x) && IsDigit(y)
    ensures PositionTotal(enabled, CallText(x, y) + rest)
            == Adds(if enabled then DecimalValue([x]) * DecimalValue([y]) else 0, PositionTotal(enabled, rest))
  {
    var s := CallText(x, y) + rest;
    CallTextValue(x, y, rest);
    LiteralTotal(enabled, Mul, s);
    CallTextArgumentsQuiet(x, y, rest);
    QuietPositionsChangeNothing(enabled, s[3..], rest);
  }

  lemma CallTextArgumentsQuiet(x: char, y: char, rest: string)
    requires IsDigit(x) && IsDigit(y)
    ensures Quiet((CallText(x, y) + rest)[3..], rest)
  {
    var s := CallText(x, y) + rest;
    InsideLiteralIsQuiet(s[3..], 5);
    assert s[3..][5..] == rest;
  }

  /** `don't()mul(2,3)do()mul(4,5)` sums to 4*5, for any single digits in
      place of 2, 3, 4 and 5. */
  lemma ToggledCalls(x: char, y: char, z: char, w: char)
    requires IsDigit(x) && IsDigit(y) && IsDigit(z) && IsDigit(w)
    ensures PositionTotal(true, Literal(Dont) + CallText(x, y) + Literal(Do) + CallText(z, w))
            == (true, DecimalValue([z]) * DecimalValue([w]))
  {
    var last := CallText(z, w);
    var v := Literal(Do) + last;
    var u := CallText(x, y) + v;
    var s := Literal(Dont) + u;
    assert Literal(Dont) + CallText(x, y) + Literal(Do) + CallText(z, w) == s;
    LiteralTotal(true, Dont, s);
    assert s[7..] == u;
    CallTextTotal(false, x, y, v);
    LiteralTotal(false, Do, v);
    assert v[4..] == last + [];
    CallTextTotal(true, z, w, []);
  }

  /** A `don't()` on one line silences a call on the next. */
  lemma SwitchCarriesAcrossLines(x: char, y: char)
    requires IsDigit(x) && IsDigit(y)
    ensures LinesTotal(true, [Literal(Dont), CallText(x, y)]) == (false, 0)
  {
    var lines := [Literal(Dont), CallText(x, y)];
    assert lines[..1] == [Literal(Dont)] && [Literal(Dont)][..0] == [];
    LiteralTotal(true, Dont, Literal(Dont));
    assert Literal(Dont)[7..] == [];
    assert LinesTotal(true, lines[..1]) == (false, 0);
    CallTextTotal(false, x, y, []);
    assert CallText(x, y) + [] == CallText(x, y);
  }
}
