/** The parsing primitives of the day-3 instruction scanner. Both day-3
    programs carry the same copies of `consume_token`, `read_digits`, the
    `consume_*`/`read_second_number` steps and the chain that reads the
    argument list of a `mul`; they are modelled once, here.

    Text is a sequence of characters and a digit is one of '0'..'9'. Every
    parser returns `Ok` with what it read and the text after it, or `Err` with
    the text from which the caller is to go on. */
module MulSyntax {
  import opened Results

  predicate IsDigit(c: char) {
    '0' <= c <= '9'
  }

  predicate AllDigits(s: string) {
    forall i | 0 <= i < |s| :: IsDigit(s[i])
  }

  /** A character that an argument list may hold before its closing `)`. */
  predicate IsArgChar(c: char) {
    c == '(' || c == ',' || IsDigit(c)
  }

  /** `rest` is a suffix of `input`, reached by skipping argument characters only. */
  predicate SkipsArgChars(input: string, rest: string)
    decreases |input|
  {
    if |input| <= |rest| then input == rest
    else IsArgChar(input[0]) && SkipsArgChars(input[1..], rest)
  }

  lemma {:induction false} SkipsArgCharsTransitive(a: string, b: string, c: string)
    requires SkipsArgChars(a, b) && SkipsArgChars(b, c)
    ensures SkipsArgChars(a, c)
    decreases |a|
  {
    if |a| > |b| {
      SkipsArgCharsTransitive(a[1..], b, c);
      SkipsLength(b, c);
    }
  }

  lemma {:induction false} SkipsLength(a: string, b: string)
    requires SkipsArgChars(a, b)
    ensures |b| <= |a|
    decreases |a|
  {
    if |a| > |b| { SkipsLength(a[1..], b); }
  }

  lemma {:induction false} SkipsDigits(s: string, n: nat)
    requires n <= |s| && AllDigits(s[..n])
    ensures SkipsArgChars(s, s[n..])
    decreases n
  {
    if n > 0 {
      assert s[1..][n - 1..] == s[n..];
      assert s[1..][..n - 1] == s[..n][1..];
      SkipsDigits(s[1..], n - 1);
      assert s[..n][0] == s[0];
    }
  }

  /** The value of a run of decimal digits, most significant digit first. */
  function DecimalValue(digits: string): nat
    requires AllDigits(digits)
  {
    if digits == [] then 0
    else DecimalValue(digits[..|digits| - 1]) * 10 + (digits[|digits| - 1] as int - '0' as int)
  }

  /** `consume_token`: strip `token` off the front of `input`. A mismatch
      hands the input back unchanged; an input shorter than the token is
      consumed entirely, which leaves the empty text. */
  function ConsumeToken(token: string, input: string): (r: Result<string, string>)
    ensures r.Ok? <==> token <= input
    ensures r.Ok? ==> token + r.value == input
    ensures r.Err? ==> r.error == if |input| < |token| then [] else input
  {
    if |input| < |token| then Err(input[|input|..])
    else if input[..|token|] == token then Ok(input[|token|..])
    else Err(input)
  }

  /** The length of the longest run of digits at the front of `s`. */
  function DigitRunLength(s: string): (n: nat)
    ensures n <= |s| && AllDigits(s[..n])
    ensures n < |s| ==> !IsDigit(s[n])
  {
    if s == [] || !IsDigit(s[0]) then 0
    else
      var m := DigitRunLength(s[1..]);
      assert s[..m + 1] == [s[0]] + s[1..][..m];
      m + 1
  }

  /** What `read_digits` computes: the value of the maximal leading digit
      run and the text after it, or a failure that hands the input back
      when the input does not start with a digit. */
  function LeadingNumber(input: string): (r: Result<(nat, string), string>)
    ensures r.Ok? <==> |input| > 0 && IsDigit(input[0])
    ensures r.Ok? ==>
              var n := |input| - |r.value.1|;
              && 0 < n
              && AllDigits(input[..n])
              && input[..n] + r.value.1 == input
              && (r.value.1 == [] || !IsDigit(r.value.1[0]))
              && r.value.0 == DecimalValue(input[..n])
    ensures r.Err? ==> r.error == input
  {
    var n := DigitRunLength(input);
    if n > 0 then Ok((DecimalValue(input[..n]), input[n..])) else Err(input)
  }

  /** `read_digits` as the source writes it: copy digits into a buffer until
      the first non-digit, then parse the buffer. */
  method ReadDigits(input: string) returns (r: Result<(nat, string), string>)
    ensures r == LeadingNumber(input)
  {
    var buf := "";
    var i := 0;
    while i < |input|
      invariant i <= DigitRunLength(input)
      invariant buf == input[..i] && AllDigits(buf)
    {
      if IsDigit(input[i]) {
        buf := buf + [input[i]];
        i := i + 1;
      } else {
        break;
      }
    }
    assert i == DigitRunLength(input);
    if |buf| > 0 {
      r := Ok((DecimalValue(buf), input[|buf|..]));
    } else {
      r := Err(input);
    }
  }

  /** `consume_open_paren`. */
  function ConsumeOpenParen(remaining: string): (r: Result<string, string>)
    ensures r.Ok? <==> |remaining| > 0 && remaining[0] == '('
    ensures r.Ok? ==> r.value == remaining[1..]
    ensures r.Err? ==> r.error == remaining
  {
    ConsumeToken("(", remaining)
  }

  /** `consume_comma`: the first operand is carried through. */
  function ConsumeComma(input: (nat, string)): (r: Result<(nat, string), string>)
    ensures r.Ok? <==> |input.1| > 0 && input.1[0] == ','
    ensures r.Ok? ==> r.value == (input.0, input.1[1..])
    ensures r.Err? ==> r.error == input.1
  {
    var (multiplicand, remaining) := input;
    var r :- ConsumeToken(",", remaining);
    Ok((multiplicand, r))
  }

  /** `read_second_number`: read the second operand and pair it with the first. */
  function ReadSecondNumber(input: (nat, string)): (r: Result<((nat, nat), string), string>)
    ensures r.Ok? <==> LeadingNumber(input.1).Ok?
    ensures r.Ok? ==> r.value == ((input.0, LeadingNumber(input.1).value.0), LeadingNumber(input.1).value.1)
    ensures r.Err? ==> r.error == input.1
  {
    var (multiplicand, remaining) := input;
    var (multiplier, r) :- LeadingNumber(remaining);
    Ok(((multiplicand, multiplier), r))
  }

  /** `consume_close_paren`: the operand pair is carried through. */
  function ConsumeCloseParen(input: ((nat, nat), string)): (r: Result<((nat, nat), string), string>)
    ensures r.Ok? <==> |input.1| > 0 && input.1[0] == ')'
    ensures r.Ok? ==> r.value == (input.0, input.1[1..])
    ensures r.Err? ==> r.error == input.1
  {
    var (multiplication, remaining) := input;
    var r :- ConsumeToken(")", remaining);
    Ok((multiplication, r))
  }

  /** `input` reads `(a,b)` and then `rest`, where `a` and `b` are non-empty
      runs of digits. */
  predicate IsCallArguments(input: string, a: string, b: string, rest: string) {
    && |a| > 0 && AllDigits(a)
    && |b| > 0 && AllDigits(b)
    && input == "(" + a + "," + b + ")" + rest
  }

  /** The chain of steps at the start of `handle_mult_instruction`: read
      `(`, the first operand, `,`, the second operand and `)`, stopping at the
      first step that does not match. */
  function CallArguments(input: string): (r: Result<((nat, nat), string), string>)
    ensures r.Ok? ==> |r.value.1| < |input|
    ensures r.Err? ==> |r.error| <= |input|
  {
    var afterParen :- ConsumeOpenParen(input);
    var first :- LeadingNumber(afterParen);
    var afterComma :- ConsumeComma(first);
    var operands :- ReadSecondNumber(afterComma);
    ConsumeCloseParen(operands)
  }

  /** `handle_mult_instruction`: the product of the two operands and the
      text after `)`, or the text at which the argument list stopped matching. */
  function HandleMultInstruction(input: string): (r: Result<(int, string), string>)
    ensures r.Ok? <==> CallArguments(input).Ok?
    ensures r.Ok? ==> r.value.1 == CallArguments(input).value.1
    ensures r.Err? ==> r.error == CallArguments(input).error
  {
    var ((multiplicand, multiplier), rest) :- CallArguments(input);
    Ok((multiplicand * multiplier, rest))
  }

  /** Where scanning resumes after the argument list: on success just after
      the closing `)`, which only argument characters precede; on failure at
      the step that did not match, reached by skipping only '(', ',' and
      digits. */
  lemma HandleMultResumePoint(input: string)
    ensures ResumesAfterArguments(input, CallArguments(input))
  {
    if |input| == 0 || input[0] != '(' {
      assert CallArguments(input) == Err(input);
      SkipsArgCharsRefl(input);
    } else if LeadingNumber(input[1..]).Err? {
      assert CallArguments(input) == Err(input[1..]);
      SkipsOpenParen(input);
    } else if ConsumeComma(LeadingNumber(input[1..]).value).Err? {
      ResumeAtComma(input);
    } else if LeadingNumber(SecondOperandText(input)).Err? {
      ResumeAtSecondOperand(input);
    } else {
      ResumeAtCloseParen(input);
    }
  }

  predicate ResumesAfterArguments(input: string, r: Result<((nat, nat), string), string>) {
    && (r.Ok? ==> SkipsArgChars(input, [')'] + r.value.1))
    && (r.Err? ==> SkipsArgChars(input, r.error))
  }

  lemma ResumeAtComma(input: string)
    requires |input| > 0 && input[0] == '(' && LeadingNumber(input[1..]).Ok?
    requires ConsumeComma(LeadingNumber(input[1..]).value).Err?
    ensures ResumesAfterArguments(input, CallArguments(input))
  {
    assert CallArguments(input) == Err(LeadingNumber(input[1..]).value.1);
    SkipsFirstOperand(input);
  }

  lemma ResumeAtSecondOperand(input: string)
    requires |input| > 0 && input[0] == '(' && LeadingNumber(input[1..]).Ok?
    requires ConsumeComma(LeadingNumber(input[1..]).value).Ok?
    requires LeadingNumber(SecondOperandText(input)).Err?
    ensures ResumesAfterArguments(input, CallArguments(input))
  {
    StopsAtSecondOperand(input);
    SkipsComma(input);
  }

  /** The chain stops where the second operand should begin when no digit is there. */
  lemma StopsAtSecondOperand(input: string)
    requires |input| > 0 && input[0] == '(' && LeadingNumber(input[1..]).Ok?
    requires ConsumeComma(LeadingNumber(input[1..]).value).Ok?
    requires LeadingNumber(SecondOperandText(input)).Err?
    ensures CallArguments(input) == Err(SecondOperandText(input))
  {
  }

  lemma ResumeAtCloseParen(input: string)
    requires |input| > 0 && input[0] == '(' && LeadingNumber(input[1..]).Ok?
    requires ConsumeComma(LeadingNumber(input[1..]).value).Ok?
    requires LeadingNumber(SecondOperandText(input)).Ok?
    ensures ResumesAfterArguments(input, CallArguments(input))
  {
    var t2 := LeadingNumber(SecondOperandText(input)).value.1;
    SkipsSecondOperand(input);
    CloseParenStep(input);
    ResumeAfterLastStep(input, t2, CallArguments(input));
  }

  lemma ResumeAfterLastStep(input: string, t2: string, r: Result<((nat, nat), string), string>)
    requires SkipsArgChars(input, t2)
    requires if |t2| > 0 && t2[0] == ')' then r.Ok? && r.value.1 == t2[1..] else r == Err(t2)
    ensures ResumesAfterArguments(input, r)
  {
    if r.Ok? {
      assert t2 == [')'] + r.value.1;
    }
  }

  /** The last step of the chain: `)` either follows the second operand or
      the chain stops at the text after it. */
  lemma CloseParenStep(input: string)
    requires |input| > 0 && input[0] == '(' && LeadingNumber(input[1..]).Ok?
    requires ConsumeComma(LeadingNumber(input[1..]).value).Ok?
    requires LeadingNumber(SecondOperandText(input)).Ok?
    ensures var t2 := LeadingNumber(SecondOperandText(input)).value.1;
            if |t2| > 0 && t2[0] == ')'
            then CallArguments(input).Ok? && CallArguments(input).value.1 == t2[1..]
            else CallArguments(input) == Err(t2)
  {
  }

  /** The text at which the second operand is read, once `(`, the first
      operand and `,` have been read. */
  function SecondOperandText(input: string): string
    requires |input| > 0 && input[0] == '(' && LeadingNumber(input[1..]).Ok?
    requires ConsumeComma(LeadingNumber(input[1..]).value).Ok?
  {
    ConsumeComma(LeadingNumber(input[1..]).value).value.1
  }

  lemma SkipsArgCharsRefl(s: string)
    ensures SkipsArgChars(s, s)
  {
  }

  lemma SkipsOpenParen(input: string)
    requires |input| > 0 && input[0] == '('
    ensures SkipsArgChars(input, input[1..])
  {
    SkipsArgCharsRefl(input[1..]);
  }

  lemma SkipsFirstOperand(input: string)
    requires |input| > 0 && input[0] == '(' && LeadingNumber(input[1..]).Ok?
    ensures SkipsArgChars(input, LeadingNumber(input[1..]).value.1)
  {
    SkipsOpenParen(input);
    LeadingNumberSkipsDigits(input[1..]);
    SkipsArgCharsTransitive(input, input[1..], LeadingNumber(input[1..]).value.1);
  }

  lemma SkipsComma(input: string)
    requires |input| > 0 && input[0] == '(' && LeadingNumber(input[1..]).Ok?
    requires ConsumeComma(LeadingNumber(input[1..]).value).Ok?
    ensures SkipsArgChars(input, SecondOperandText(input))
  {
    var t1 := LeadingNumber(input[1..]).value.1;
    SkipsFirstOperand(input);
    SkipsArgCharsRefl(t1[1..]);
    SkipsArgCharsTransitive(input, t1, t1[1..]);
  }

  lemma SkipsSecondOperand(input: string)
    requires |input| > 0 && input[0] == '(' && LeadingNumber(input[1..]).Ok?
    requires ConsumeComma(LeadingNumber(input[1..]).value).Ok?
    requires LeadingNumber(SecondOperandText(input)).Ok?
    ensures SkipsArgChars(input, LeadingNumber(SecondOperandText(input)).value.1)
  {
    var s2 := SecondOperandText(input);
    SkipsComma(input);
    LeadingNumberSkipsDigits(s2);
    SkipsArgCharsTransitive(input, s2, LeadingNumber(s2).value.1);
  }

  lemma LeadingNumberSkipsDigits(s: string)
    requires LeadingNumber(s).Ok?
    ensures SkipsArgChars(s, LeadingNumber(s).value.1)
  {
    SkipsDigits(s, DigitRunLength(s));
  }

  /** Every successful parse is of a well-formed argument list, and yields
      the values of the operands it spells. */
  lemma CallArgumentsSound(input: string) returns (a: string, b: string)
    requires CallArguments(input).Ok?
    ensures IsCallArguments(input, a, b, CallArguments(input).value.1)
    ensures CallArguments(input).value.0 == (DecimalValue(a), DecimalValue(b))
  {
    CallArgumentsStages(input);
    var t1, t2;
    a, t1 := LeadingNumberSplit(input[1..]);
    b, t2 := LeadingNumberSplit(SecondOperandText(input));
    Reassemble(input, a, t1, b, t2);
  }

  /** A successful leading number splits its text into digits and the rest. */
  lemma LeadingNumberSplit(s: string) returns (digits: string, tail: string)
    requires LeadingNumber(s).Ok?
    ensures |digits| > 0 && AllDigits(digits) && s == digits + tail
    ensures LeadingNumber(s).value == (DecimalValue(digits), tail)
  {
    var n := |s| - |LeadingNumber(s).value.1|;
    digits, tail := s[..n], LeadingNumber(s).value.1;
  }

  lemma Reassemble(input: string, a: string, t1: string, b: string, t2: string)
    requires |input| > 0 && input[0] == '(' && input[1..] == a + t1
    requires |t1| > 0 && t1[0] == ',' && t1[1..] == b + t2
    requires |t2| > 0 && t2[0] == ')'
    ensures input == "(" + a + "," + b + ")" + t2[1..]
  {
    assert t2 == [')'] + t2[1..];
    assert t1 == [','] + (b + t2);
    assert input == ['('] + (a + t1);
  }

  /** The stages a successful argument list passes through. */
  lemma CallArgumentsStages(input: string)
    requires CallArguments(input).Ok?
    ensures |input| > 0 && input[0] == '(' && LeadingNumber(input[1..]).Ok?
    ensures ConsumeComma(LeadingNumber(input[1..]).value).Ok?
    ensures LeadingNumber(SecondOperandText(input)).Ok?
    ensures var t2 := LeadingNumber(SecondOperandText(input)).value.1;
            && |t2| > 0 && t2[0] == ')'
            && CallArguments(input)
               == Ok(((LeadingNumber(input[1..]).value.0, LeadingNumber(SecondOperandText(input)).value.0), t2[1..]))
  {
  }

  /** Every well-formed argument list is read in full, whatever follows it. */
  lemma CallArgumentsComplete(a: string, b: string, rest: string)
    requires |a| > 0 && AllDigits(a) && |b| > 0 && AllDigits(b)
    ensures CallArguments("(" + a + "," + b + ")" + rest)
            == Ok(((DecimalValue(a), DecimalValue(b)), rest))
  {
    var t2 := [')'] + rest;
    var s2 := b + t2;
    var t1 := [','] + s2;
    var s1 := a + t1;
    var input := ['('] + s1;
    assert input == "(" + a + "," + b + ")" + rest;
    var x, y := DecimalValue(a), DecimalValue(b);
    assert ConsumeOpenParen(input) == Ok(s1) by {
      assert input[1..] == s1;
    }
    assert LeadingNumber(s1) == Ok((x, t1)) by {
      LeadingDigitRun(a, t1);
    }
    assert ConsumeComma((x, t1)) == Ok((x, s2)) by {
      assert t1[1..] == s2;
    }
    assert ReadSecondNumber((x, s2)) == Ok(((x, y), t2)) by {
      LeadingDigitRun(b, t2);
    }
    assert ConsumeCloseParen(((x, y), t2)) == Ok(((x, y), rest)) by {
      assert t2[1..] == rest;
    }
  }

  /** `handle_mult_instruction` succeeds exactly on the texts that begin
      with a well-formed argument list, and then yields the product of its
      operands and the text after `)`. */
  lemma HandleMultMeaning(a: string, b: string, rest: string)
    requires |a| > 0 && AllDigits(a) && |b| > 0 && AllDigits(b)
    ensures HandleMultInstruction("(" + a + "," + b + ")" + rest)
            == Ok((DecimalValue(a) * DecimalValue(b), rest))
  {
    CallArgumentsComplete(a, b, rest);
  }

  /** A digit run followed by a non-digit is read exactly. */
  lemma {:induction false} LeadingDigitRun(d: string, tail: string)
    requires |d| > 0 && AllDigits(d)
    requires tail == [] || !IsDigit(tail[0])
    ensures DigitRunLength(d + tail) == |d|
    ensures LeadingNumber(d + tail) == Ok((DecimalValue(d), tail))
  {
    if |d| > 1 {
      assert (d + tail)[1..] == d[1..] + tail;
      LeadingDigitRun(d[1..], tail);
    } else {
      assert (d + tail)[1..] == tail;
    }
    assert (d + tail)[..|d|] == d;
    assert (d + tail)[|d|..] == tail;
  }

  /** The product of the call `mul(a,b)` that starts at the front of `t`,
      if one does. */
  function MulCallAt(t: string): (r: Option<int>)
    ensures r.Some? ==> "mul" <= t
  {
    if "mul" <= t then
      match CallArguments(t[3..])
      case Ok(((multiplicand, multiplier), _)) => Some(multiplicand * multiplier)
      case Err(_) => None
    else None
  }

  /** A text that starts with a well-formed call yields its product. */
  lemma MulCallAtWellFormed(a: string, b: string, rest: string)
    requires |a| > 0 && AllDigits(a) && |b| > 0 && AllDigits(b)
    ensures MulCallAt("mul(" + a + "," + b + ")" + rest) == Some(DecimalValue(a) * DecimalValue(b))
  {
    var u := "(" + a + "," + b + ")" + rest;
    var t := "mul" + u;
    assert t[..3] == "mul" && t[3..] == u;
    assert CallArguments(u) == Ok(((DecimalValue(a), DecimalValue(b)), rest)) by {
      CallArgumentsComplete(a, b, rest);
    }
    PrependMul(t, u, a, b, rest);
  }

  /** Only a text that starts with a well-formed call yields a product. */
  lemma MulCallAtSound(t: string) returns (a: string, b: string, rest: string)
    requires MulCallAt(t).Some?
    ensures |a| > 0 && AllDigits(a) && |b| > 0 && AllDigits(b)
    ensures t == "mul(" + a + "," + b + ")" + rest
    ensures MulCallAt(t).value == DecimalValue(a) * DecimalValue(b)
  {
    var u := t[3..];
    rest := CallArguments(u).value.1;
    a, b := CallArgumentsSound(u);
    assert t == "mul" + u;
    PrependMul(t, u, a, b, rest);
  }

  lemma PrependMul(t: string, u: string, a: string, b: string, rest: string)
    requires t == "mul" + u && u == "(" + a + "," + b + ")" + rest
    ensures t == "mul(" + a + "," + b + ")" + rest
  {
  }

  /** The product of the call at the front of `t`, or nothing. */
  function MulValueAt(t: string): int {
    match MulCallAt(t)
    case Some(product) => product
    case None => 0
  }

  /** `mul(x,y)` written out character by character. */
  function CallText(x: char, y: char): string {
    ['m', 'u', 'l', '(', x, ',', y, ')']
  }

  /** The product of a call written out character by character. */
  lemma CallTextValue(x: char, y: char, rest: string)
    requires IsDigit(x) && IsDigit(y)
    ensures MulValueAt(CallText(x, y) + rest) == DecimalValue([x]) * DecimalValue([y])
  {
    assert CallText(x, y) + rest == "mul(" + [x] + "," + [y] + ")" + rest;
    MulCallAtWellFormed([x], [y], rest);
  }
}
