/** Day 1: every line of the input holds two location IDs, one for the
    left list and one for the right. Both parts of the puzzle read the
    lines the same way, with the same `parse_into_numbers`. */
module LocationLists {
  import opened Results
  import opened InputLines

  /** The error type both day-1 programs share. */
  datatype Error = IoError | NotParseableAsNumber | WrongNumValuesToUnpack

  /** `parse_into_numbers`: an unreadable line passes its I/O error on; a
      word that is not an integer fails the line before its length is
      looked at; otherwise the line must hold exactly two integers. */
  function ParseIntoNumbers(line: Line): (r: Result<(int, int), Error>)
    ensures line.Unreadable? ==> r == Err(IoError)
    ensures line.Line? && !AllInts(line.words) ==> r == Err(NotParseableAsNumber)
    ensures line.Line? && AllInts(line.words) && |line.words| != 2 ==> r == Err(WrongNumValuesToUnpack)
    ensures r.Ok? <==> line.Line? && |line.words| == 2 && line.words[0].Int? && line.words[1].Int?
    ensures r.Ok? ==> line.words == [Int(r.value.0), Int(r.value.1)]
  {
    match line
    case Unreadable => Err(IoError)
    case Line(words) =>
      if !AllInts(words) then Err(NotParseableAsNumber)
      else
        var values := Values(words);
        if |values| != 2 then Err(WrongNumValuesToUnpack)
        else Ok((values[0], values[1]))
  }

  /** Every line holds exactly two integers. */
  predicate AllParse(lines: seq<Line>) {
    forall i | 0 <= i < |lines| :: ParseIntoNumbers(lines[i]).Ok?
  }

  /** The pair each line holds, in line order. */
  function Pairs(lines: seq<Line>): (r: seq<(int, int)>)
    requires AllParse(lines)
    ensures |r| == |lines|
    ensures forall i | 0 <= i < |lines| :: ParseIntoNumbers(lines[i]) == Ok(r[i])
  {
    if lines == [] then [] else [ParseIntoNumbers(lines[0]).value] + Pairs(lines[1..])
  }

  /** The left list: the first ID of every pair. */
  function Lefts(pairs: seq<(int, int)>): (r: seq<int>)
    ensures |r| == |pairs|
    ensures forall i | 0 <= i < |pairs| :: r[i] == pairs[i].0
  {
    if pairs == [] then [] else [pairs[0].0] + Lefts(pairs[1..])
  }

  /** The right list: the second ID of every pair. */
  function Rights(pairs: seq<(int, int)>): (r: seq<int>)
    ensures |r| == |pairs|
    ensures forall i | 0 <= i < |pairs| :: r[i] == pairs[i].1
  {
    if pairs == [] then [] else [pairs[0].1] + Rights(pairs[1..])
  }

  lemma LeftsConcat(pairs: seq<(int, int)>, more: seq<(int, int)>)
    ensures Lefts(pairs + more) == Lefts(pairs) + Lefts(more)
  {
    var joined, parts := Lefts(pairs + more), Lefts(pairs) + Lefts(more);
    forall i | 0 <= i < |joined|
      ensures joined[i] == parts[i]
    {
      if i < |pairs| {
        assert (pairs + more)[i] == pairs[i];
      } else {
        assert (pairs + more)[i] == more[i - |pairs|];
      }
    }
  }

  lemma RightsConcat(pairs: seq<(int, int)>, more: seq<(int, int)>)
    ensures Rights(pairs + more) == Rights(pairs) + Rights(more)
  {
    var joined, parts := Rights(pairs + more), Rights(pairs) + Rights(more);
    forall i | 0 <= i < |joined|
      ensures joined[i] == parts[i]
    {
      if i < |pairs| {
        assert (pairs + more)[i] == pairs[i];
      } else {
        assert (pairs + more)[i] == more[i - |pairs|];
      }
    }
  }

  lemma AllParseConcat(lines: seq<Line>, more: seq<Line>)
    requires AllParse(lines) && AllParse(more)
    ensures AllParse(lines + more)
  {
    forall j | 0 <= j < |lines + more|
      ensures ParseIntoNumbers((lines + more)[j]).Ok?
    {
      if j < |lines| {
        assert (lines + more)[j] == lines[j];
      } else {
        assert (lines + more)[j] == more[j - |lines|];
      }
    }
  }

  /** The pairs of two blocks of lines, one after the other. */
  lemma {:induction false} PairsConcat(lines: seq<Line>, more: seq<Line>)
    requires AllParse(lines) && AllParse(more)
    ensures AllParse(lines + more)
    ensures Pairs(lines + more) == Pairs(lines) + Pairs(more)
    decreases |lines|
  {
    AllParseConcat(lines, more);
    var both := lines + more;
    if lines != [] {
      assert AllParse(lines[1..]) by {
        assert forall j | 0 <= j < |lines| - 1 :: lines[1..][j] == lines[j + 1];
      }
      assert both[1..] == lines[1..] + more && both[0] == lines[0];
      PairsConcat(lines[1..], more);
    } else {
      assert both == more;
    }
  }

  /** Swapping two blocks of lines leaves the multiset of left IDs and the
      multiset of right IDs as they were. */
  lemma SwappedBlocks(lines: seq<Line>, more: seq<Line>)
    requires AllParse(lines) && AllParse(more)
    ensures AllParse(lines + more) && AllParse(more + lines)
    ensures multiset(Lefts(Pairs(lines + more))) == multiset(Lefts(Pairs(more + lines)))
    ensures multiset(Rights(Pairs(lines + more))) == multiset(Rights(Pairs(more + lines)))
  {
    PairsConcat(lines, more);
    PairsConcat(more, lines);
    LeftsConcat(Pairs(lines), Pairs(more));
    LeftsConcat(Pairs(more), Pairs(lines));
    RightsConcat(Pairs(lines), Pairs(more));
    RightsConcat(Pairs(more), Pairs(lines));
  }

  /** The pairs of a line prefix grow by one pair per line. */
  lemma PairsOfPrefix(lines: seq<Line>, i: nat)
    requires i < |lines| && AllParse(lines[..i + 1])
    ensures AllParse(lines[..i])
    ensures Pairs(lines[..i + 1]) == Pairs(lines[..i]) + [ParseIntoNumbers(lines[i]).value]
  {
    assert lines[..i + 1] == lines[..i] + [lines[i]];
    assert AllParse([lines[i]]);
    PairsConcat(lines[..i], [lines[i]]);
  }

  /** One more line that holds two integers adds its left ID to the end of
      the left list and its right ID to the end of the right list. */
  lemma PrefixStep(lines: seq<Line>, i: nat)
    requires i < |lines| && AllParse(lines[..i]) && ParseIntoNumbers(lines[i]).Ok?
    ensures AllParse(lines[..i + 1])
    ensures var p := ParseIntoNumbers(lines[i]).value;
            && Lefts(Pairs(lines[..i + 1])) == Lefts(Pairs(lines[..i])) + [p.0]
            && Rights(Pairs(lines[..i + 1])) == Rights(Pairs(lines[..i])) + [p.1]
  {
    assert AllParse(lines[..i + 1]) by {
      assert forall j | 0 <= j < i + 1 :: lines[..i + 1][j] == if j < i then lines[..i][j] else lines[i];
    }
    PairsOfPrefix(lines, i);
    var before, p := Pairs(lines[..i]), ParseIntoNumbers(lines[i]).value;
    LeftsConcat(before, [p]);
    RightsConcat(before, [p]);
  }
}
