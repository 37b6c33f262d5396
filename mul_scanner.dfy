/** The day-3 part-1 scanner: find every `mul(a,b)` in a line of noisy text
    and add up the products; lines are summed independently. */
module MulScanner {
  import opened Results
  import opened MulSyntax

  /** `t` is a suffix of `s`, reached by passing only positions at which
      `token` does not begin. */
  predicate Avoids(token: string, s: string, t: string)
    decreases |s|
  {
    if |s| <= |t| then s == t
    else !(token <= s) && Avoids(token, s[1..], t)
  }

  /** `scan_for_next_token_and_consume`: the text after the first
      occurrence of `token`, or the empty text when there is none. */
  function ScanForNextTokenAndConsume(token: string, input: string): (r: Result<string, string>)
    ensures r.Ok? ==> |token| + |r.value| <= |input| && Avoids(token, input, token + r.value)
    ensures r.Err? ==> r.error == [] && Avoids(token, input, [])
    decreases |input|
  {
    if token <= input then
      assert input == token + input[|token|..];
      Ok(input[|token|..])
    else if input == [] then Err([])
    else ScanForNextTokenAndConsume(token, input[1..])
  }

  /** Passing over positions means exactly: a suffix before which `token`
      begins nowhere. */
  lemma AvoidsMeansNoEarlierOccurrence(token: string, s: string, t: string)
    ensures Avoids(token, s, t) <==>
              && |t| <= |s| && s[|s| - |t|..] == t
              && forall i | 0 <= i < |s| - |t| :: !(token <= s[i..])
  {
    if Avoids(token, s, t) {
      AvoidsGivesNoOccurrence(token, s, t);
    }
    if |t| <= |s| && s[|s| - |t|..] == t && forall i | 0 <= i < |s| - |t| :: !(token <= s[i..]) {
      NoOccurrenceGivesAvoids(token, s, t);
    }
  }

  lemma {:induction false} AvoidsGivesNoOccurrence(token: string, s: string, t: string)
    requires Avoids(token, s, t)
    ensures |t| <= |s| && s[|s| - |t|..] == t
    ensures forall i | 0 <= i < |s| - |t| :: !(token <= s[i..])
    decreases |s|
  {
    if |s| > |t| {
      AvoidsGivesNoOccurrence(token, s[1..], t);
      assert s[1..][|s| - 1 - |t|..] == s[|s| - |t|..];
      forall i | 0 <= i < |s| - |t|
        ensures !(token <= s[i..])
      {
        if i > 0 {
          assert s[1..][i - 1..] == s[i..];
        }
      }
    }
  }

  lemma {:induction false} NoOccurrenceGivesAvoids(token: string, s: string, t: string)
    requires |t| <= |s| && s[|s| - |t|..] == t
    requires forall i | 0 <= i < |s| - |t| :: !(token <= s[i..])
    ensures Avoids(token, s, t)
    decreases |s|
  {
    if |s| > |t| {
      assert s[1..][|s| - 1 - |t|..] == s[|s| - |t|..];
      forall i | 0 <= i < |s| - 1 - |t|
        ensures !(token <= s[1..][i..])
      {
        assert s[1..][i..] == s[i + 1..];
      }
      NoOccurrenceGivesAvoids(token, s[1..], t);
      assert !(token <= s[0..]);
      assert s[0..] == s;
    } else {
      assert s[|s| - |t|..] == s;
    }
  }

  /** The line total as a reference definition: the sum of `a*b` over every
      position at which the text reads `mul(a,b)`. */
  function MulCallSum(s: string): int {
    if s == [] then 0 else MulValueAt(s) + MulCallSum(s[1..])
  }

  /** Positions at which "mul" does not begin add nothing. */
  lemma {:induction false} AvoidedPositionsAddNothing(s: string, t: string)
    requires Avoids("mul", s, t)
    ensures MulCallSum(s) == MulCallSum(t)
    decreases |s|
  {
    if |s| > |t| {
      AvoidedPositionsAddNothing(s[1..], t);
    }
  }

  /** Argument characters begin no call, so skipping them adds nothing. */
  lemma {:induction false} SkippedArgumentsAddNothing(s: string, t: string)
    requires SkipsArgChars(s, t)
    ensures MulCallSum(s) == MulCallSum(t)
    decreases |s|
  {
    if |s| > |t| {
      assert !("mul" <= s) by { assert IsArgChar(s[0]); }
      SkippedArgumentsAddNothing(s[1..], t);
    }
  }

  /** The letters of "mul" after its first begin no call. */
  lemma MulStartSum(s: string)
    requires "mul" <= s
    ensures MulCallSum(s) == MulValueAt(s) + MulCallSum(s[3..])
  {
    var s1 := s[1..];
    var s2 := s1[1..];
    assert s1[0] == 'u' && MulValueAt(s1) == 0;
    assert s2[0] == 'l' && MulValueAt(s2) == 0;
    assert s2[1..] == s[3..];
    assert MulCallSum(s1) == MulCallSum(s2) == MulCallSum(s[3..]);
  }

  /** A well-formed call adds exactly the product of its operands. */
  lemma WellFormedCallAdds(a: string, b: string, rest: string)
    requires |a| > 0 && AllDigits(a) && |b| > 0 && AllDigits(b)
    ensures MulCallSum("mul(" + a + "," + b + ")" + rest)
            == DecimalValue(a) * DecimalValue(b) + MulCallSum(rest)
  {
    var args := "(" + a + "," + b + ")" + rest;
    PrependMul("mul" + args, args, a, b, rest);
    CallAdds("mul" + args, args, a, b, rest);
  }

  lemma CallAdds(s: string, args: string, a: string, b: string, rest: string)
    requires |a| > 0 && AllDigits(a) && |b| > 0 && AllDigits(b)
    requires args == "(" + a + "," + b + ")" + rest && s == "mul" + args
    requires s == "mul(" + a + "," + b + ")" + rest
    ensures MulCallSum(s) == DecimalValue(a) * DecimalValue(b) + MulCallSum(rest)
  {
    assert s[3..] == args;
    MulStartSum(s);
    MulCallAtWellFormed(a, b, rest);
    ArgumentsAddNothing(args, a, b, rest);
  }

  /** The argument list of a well-formed call begins no other call. */
  lemma ArgumentsAddNothing(args: string, a: string, b: string, rest: string)
    requires |a| > 0 && AllDigits(a) && |b| > 0 && AllDigits(b)
    requires args == "(" + a + "," + b + ")" + rest
    ensures MulCallSum(args) == MulCallSum(rest)
  {
    CallArgumentsComplete(a, b, rest);
    HandleMultResumePoint(args);
    var close := [')'] + rest;
    SkippedArgumentsAddNothing(args, close);
    assert close[1..] == rest;
  }

  /** Lines 73-78: find "mul", then read its argument list. */
  function ParseNextMul(remaining: string): (r: Result<((nat, nat), string), string>)
    ensures r.Ok? ==> |r.value.1| < |remaining|
    ensures r.Err? ==> |r.error| < |remaining| || remaining == []
  {
    var afterMul :- ScanForNextTokenAndConsume("mul", remaining);
    CallArguments(afterMul)
  }

  /** One turn of the loop keeps the reference total: what it adds plus the
      total of the text it resumes at is the total of the text it started at. */
  lemma ParseNextMulStep(remaining: string)
    ensures match ParseNextMul(remaining)
            case Ok(((multiplicand, multiplier), next)) =>
              MulCallSum(remaining) == multiplicand * multiplier + MulCallSum(next)
            case Err(next) =>
              MulCallSum(remaining) == MulCallSum(next)
  {
    var scanned := ScanForNextTokenAndConsume("mul", remaining);
    if scanned.Err? {
      AvoidedPositionsAddNothing(remaining, []);
    } else {
      var afterMul := scanned.value;
      AvoidedPositionsAddNothing(remaining, "mul" + afterMul);
      MulStartSum("mul" + afterMul);
      assert ("mul" + afterMul)[3..] == afterMul;
      HandleMultResumePoint(afterMul);
      match CallArguments(afterMul)
      case Ok((_, next)) =>
        SkippedArgumentsAddNothing(afterMul, [')'] + next);
        assert ([')'] + next)[1..] == next;
      case Err(next) =>
        SkippedArgumentsAddNothing(afterMul, next);
    }
  }

  /** `sum_multiplications`: repeatedly find the next call and add its
      product, resuming where parsing stopped. */
  method SumMultiplications(input: string) returns (result: int)
    ensures result == MulCallSum(input)
  {
    var remaining := input;
    result := 0;
    while |remaining| > 0
      invariant result + MulCallSum(remaining) == MulCallSum(input)
      decreases |remaining|
    {
      var parseResult := ParseNextMul(remaining);
      ParseNextMulStep(remaining);
      match parseResult
      case Ok(((multiplicand, multiplier), newRemaining)) =>
        result := result + multiplicand * multiplier;
        remaining := newRemaining;
      case Err(newRemaining) =>
        remaining := newRemaining;
    }
  }

  /** The program total: the sum of the line totals. */
  function LinesTotal(lines: seq<string>): int {
    if lines == [] then 0 else LinesTotal(lines[..|lines| - 1]) + MulCallSum(lines[|lines| - 1])
  }

  /** Lines are summed independently: the total of two blocks of lines is
      the sum of their totals. */
  lemma {:induction false} LinesTotalAppend(a: seq<string>, b: seq<string>)
    ensures LinesTotal(a + b) == LinesTotal(a) + LinesTotal(b)
    decreases |b|
  {
    if b == [] {
      assert a + b == a;
    } else {
      assert (a + b)[..|a + b| - 1] == a + b[..|b| - 1];
      LinesTotalAppend(a, b[..|b| - 1]);
    }
  }

  /** The loop of `main`, over lines that have already been read. */
  method SumLines(lines: seq<string>) returns (result: int)
    ensures result == LinesTotal(lines)
  {
    result := 0;
    for i := 0 to |lines|
      invariant result == LinesTotal(lines[..i])
    {
      var lineResult := SumMultiplications(lines[i]);
      assert lines[..i + 1][..i] == lines[..i];
      result := result + lineResult;
    }
    assert lines[..|lines|] == lines;
  }

  lemma CallTextAdds(x: char, y: char, rest: string)
    requires IsDigit(x) && IsDigit(y)
    ensures MulCallSum(CallText(x, y) + rest) == DecimalValue([x]) * DecimalValue([y]) + MulCallSum(rest)
  {
    assert CallText(x, y) + rest == "mul(" + [x] + "," + [y] + ")" + rest;
    WellFormedCallAdds([x], [y], rest);
  }

  /** `mul(2,3)mul(4,5)` sums to 2*3 + 4*5, for any single digits in place
      of 2, 3, 4 and 5. */
  lemma TwoWellFormedCalls(x: char, y: char, z: char, w: char)
    requires IsDigit(x) && IsDigit(y) && IsDigit(z) && IsDigit(w)
    ensures MulCallSum(CallText(x, y) + CallText(z, w))
            == DecimalValue([x]) * DecimalValue([y]) + DecimalValue([z]) * DecimalValue([w])
  {
    CallTextAdds(z, w, []);
    assert CallText(z, w) + [] == CallText(z, w);
    CallTextAdds(x, y, CallText(z, w));
  }

  /** A call that does not parse adds nothing, and the total resumes at the
      text where its argument list stopped matching. */
  lemma MalformedCallResumes(t: string)
    requires "mul" <= t && CallArguments(t[3..]).Err?
    ensures MulCallSum(t) == MulCallSum(CallArguments(t[3..]).error)
  {
    MulStartSum(t);
    HandleMultResumePoint(t[3..]);
    SkippedArgumentsAddNothing(t[3..], CallArguments(t[3..]).error);
  }

  /** `mul(2,)mul(4,5)` sums to 4*5, for any single digits in place of 2, 4 and 5. */
  lemma MalformedThenWellFormed(x: char, z: char, w: char)
    requires IsDigit(x) && IsDigit(z) && IsDigit(w)
    ensures MulCallSum(['m', 'u', 'l', '(', x, ',', ')'] + CallText(z, w))
            == DecimalValue([z]) * DecimalValue([w])
  {
    var s := ['m', 'u', 'l', '(', x, ',', ')'] + CallText(z, w);
    var args := s[3..];
    assert args[1..] == [x] + ([',', ')'] + CallText(z, w));
    LeadingDigitRun([x], [',', ')'] + CallText(z, w));
    assert SecondOperandText(args) == [')'] + CallText(z, w);
    StopsAtSecondOperand(args);
    MalformedCallResumes(s);
    assert ([')'] + CallText(z, w))[1..] == CallText(z, w) + [];
    CallTextAdds(z, w, []);
  }
}
