/** Day 1, part 2: every left ID scores itself times the number of times it
    occurs in the right list, and the similarity score adds those up. The
    program counts the right IDs in a hash map as it reads the lines. */
module ListSimilarity {
  import opened Results
  import opened InputLines
  import opened LocationLists

  /** The similarity score of a left list against the right IDs, counted
      with their multiplicity. */
  function SimilarityScore(lefts: seq<int>, rights: multiset<int>): int {
    if lefts == [] then 0
    else SimilarityScore(lefts[..|lefts| - 1], rights) + lefts[|lefts| - 1] * rights[lefts[|lefts| - 1]]
  }

  /** The score of two blocks of left IDs is the sum of their scores. */
  lemma {:induction false} ScoreOfConcat(a: seq<int>, b: seq<int>, rights: multiset<int>)
    ensures SimilarityScore(a + b, rights) == SimilarityScore(a, rights) + SimilarityScore(b, rights)
    decreases |b|
  {
    if b == [] {
      assert a + b == a;
    } else {
      var init, last := b[..|b| - 1], b[|b| - 1];
      ScoreOfConcat(a, init, rights);
      assert (a + b)[..|a + b| - 1] == a + init;
    }
  }

  /** A left ID that does not occur on the right adds nothing. */
  lemma UnmatchedAddsNothing(a: seq<int>, x: int, b: seq<int>, rights: multiset<int>)
    requires x !in rights
    ensures SimilarityScore(a + [x] + b, rights) == SimilarityScore(a + b, rights)
  {
    ScoreOfConcat(a + [x], b, rights);
    ScoreOfConcat(a, [x], rights);
    ScoreOfConcat(a, b, rights);
    assert [x][..0] == [];
  }

  lemma MultiplyOneMore(a: int, b: int)
    ensures a * (b + 1) == a * b + a
  {
  }

  /** Scoring against one more right ID adds that ID once for each time it
      occurs on the left. */
  lemma {:induction false} ScoreOfOneMoreRight(lefts: seq<int>, rights: multiset<int>, x: int)
    ensures SimilarityScore(lefts, rights + multiset{x}) == SimilarityScore(lefts, rights) + x * multiset(lefts)[x]
    decreases |lefts|
  {
    if lefts == [] {
      assert multiset(lefts)[x] == 0;
    } else {
      var init, last := lefts[..|lefts| - 1], lefts[|lefts| - 1];
      var more := rights + multiset{x};
      ScoreOfOneMoreRight(init, rights, x);
      assert lefts == init + [last];
      var c := multiset(init)[x];
      if last == x {
        assert multiset(lefts)[x] == c + 1;
        assert more[x] == rights[x] + 1;
        MultiplyOneMore(x, c);
        MultiplyOneMore(x, rights[x]);
      } else {
        assert multiset(lefts)[x] == c;
        assert more[last] == rights[last];
      }
    }
  }

  /** Swapping the two lists leaves the score as it was. */
  lemma {:induction false} ScoreIsSymmetric(xs: seq<int>, ys: seq<int>)
    ensures SimilarityScore(xs, multiset(ys)) == SimilarityScore(ys, multiset(xs))
    decreases |xs|
  {
    if xs == [] {
      ScoreAgainstNothing(ys);
    } else {
      var init, last := xs[..|xs| - 1], xs[|xs| - 1];
      ScoreIsSymmetric(init, ys);
      assert xs == init + [last];
      assert multiset(xs) == multiset(init) + multiset{last};
      ScoreOfOneMoreRight(ys, multiset(init), last);
    }
  }

  /** Against no right IDs every score is zero. */
  lemma {:induction false} ScoreAgainstNothing(lefts: seq<int>)
    ensures SimilarityScore(lefts, multiset{}) == 0
    decreases |lefts|
  {
    if lefts != [] {
      ScoreAgainstNothing(lefts[..|lefts| - 1]);
    }
  }

  /** `OccurrenceCounter`: how often each right ID has been seen so far,
      held in a map from ID to count. */
  class OccurrenceCounter {
    var numberCounts: map<int, int>
    /** The right IDs seen so far, with their multiplicity. */
    ghost var observed: multiset<int>

    ghost predicate Valid()
      reads this
    {
      && (forall n | n in numberCounts :: numberCounts[n] == observed[n])
      && (forall n | n !in numberCounts :: observed[n] == 0)
    }

    /** `new`: nothing seen yet. */
    constructor()
      ensures Valid() && numberCounts == map[] && observed == multiset{}
    {
      numberCounts := map[];
      observed := multiset{};
    }

    /** `num_occurances`: how often `n` has been seen; 0 for a value never seen. */
    function NumOccurances(n: int): (r: int)
      reads this
      requires Valid()
      ensures r == observed[n]
      ensures n !in numberCounts ==> r == 0
    {
      if n in numberCounts then numberCounts[n] else 0
    }

    /** `increment_observed_count`: one more `n` seen; every other count stays. */
    method IncrementObservedCount(n: int)
      requires Valid()
      modifies this
      ensures Valid()
      ensures observed == old(observed) + multiset{n}
      ensures numberCounts == old(numberCounts)[n := old(NumOccurances(n)) + 1]
      ensures NumOccurances(n) == old(NumOccurances(n)) + 1
      ensures forall m | m != n :: NumOccurances(m) == old(NumOccurances(m))
    {
      if n in numberCounts {
        numberCounts := numberCounts[n := numberCounts[n] + 1];
      } else {
        numberCounts := numberCounts[n := 1];
      }
      observed := observed + multiset{n};
    }
  }

  /** The map and fold of `find_similarity_score`: each left ID times its
      count in the counter, added up in list order. */
  function Score(leftList: seq<int>, counter: OccurrenceCounter): (r: int)
    reads counter
    requires counter.Valid()
    ensures r == SimilarityScore(leftList, counter.observed)
  {
    if leftList == [] then 0
    else
      var left := leftList[|leftList| - 1];
      Score(leftList[..|leftList| - 1], counter) + left * counter.NumOccurances(left)
  }

  /** `accum_into_left_list_and_right_map`: a parsed line puts its left ID
      at the end of the left list and counts its right ID; an error is
      passed on. */
  method AccumIntoLeftListAndRightMap(leftList: seq<int>, counter: OccurrenceCounter, nextItem: Result<(int, int), Error>)
    returns (r: Result<seq<int>, Error>)
    requires counter.Valid()
    modifies counter
    ensures counter.Valid()
    ensures nextItem.Err? ==> r == Err(nextItem.error) && counter.observed == old(counter.observed)
    ensures nextItem.Ok? ==> r == Ok(leftList + [nextItem.value.0])
                             && counter.observed == old(counter.observed) + multiset{nextItem.value.1}
  {
    match nextItem
    case Err(e) => return Err(e);
    case Ok((left, right)) =>
      counter.IncrementObservedCount(right);
      return Ok(leftList + [left]);
  }

  /** `lefts` is the left list of `lines` and `rights` the right IDs they hold. */
  ghost predicate Accumulated(lines: seq<Line>, lefts: seq<int>, rights: multiset<int>) {
    AllParse(lines) && lefts == Lefts(Pairs(lines)) && rights == multiset(Rights(Pairs(lines)))
  }

  lemma AccumulatedStep(lines: seq<Line>, i: nat, lefts: seq<int>, rights: multiset<int>)
    requires i < |lines| && Accumulated(lines[..i], lefts, rights) && ParseIntoNumbers(lines[i]).Ok?
    ensures var p := ParseIntoNumbers(lines[i]).value;
            Accumulated(lines[..i + 1], lefts + [p.0], rights + multiset{p.1})
  {
    PrefixStep(lines, i);
  }

  /** `find_similarity_score` on lines already read: build the left list and
      the right counts, stopping at the first line that does not hold two
      integers, then score the left list. */
  method FindSimilarityScore(lines: seq<Line>) returns (r: Result<int, Error>)
    ensures AllParse(lines) ==> r == Ok(SimilarityScore(Lefts(Pairs(lines)), multiset(Rights(Pairs(lines)))))
    ensures !AllParse(lines) ==>
              r.Err? && exists k | 0 <= k < |lines| ::
                ParseIntoNumbers(lines[k]) == Err(r.error) && AllParse(lines[..k])
  {
    var leftList: seq<int> := [];
    var counter := new OccurrenceCounter();
    assert lines[..0] == [];
    for i := 0 to |lines|
      invariant counter.Valid()
      invariant Accumulated(lines[..i], leftList, counter.observed)
    {
      ghost var rights := counter.observed;
      var item := ParseIntoNumbers(lines[i]);
      var accum := AccumIntoLeftListAndRightMap(leftList, counter, item);
      if accum.Err? {
        assert ParseIntoNumbers(lines[i]) == Err(accum.error) && !ParseIntoNumbers(lines[i]).Ok?;
        return Err(accum.error);
      }
      AccumulatedStep(lines, i, leftList, rights);
      leftList := accum.value;
    }
    assert lines[..|lines|] == lines;
    var result := Score(leftList, counter);
    return Ok(result);
  }

  /** Swapping two blocks of lines leaves the score as it was. */
  lemma SwappedBlocksScore(lines: seq<Line>, more: seq<Line>)
    requires AllParse(lines) && AllParse(more)
    ensures AllParse(lines + more) && AllParse(more + lines)
    ensures SimilarityScore(Lefts(Pairs(lines + more)), multiset(Rights(Pairs(lines + more))))
         == SimilarityScore(Lefts(Pairs(more + lines)), multiset(Rights(Pairs(more + lines))))
  {
    SwappedBlocks(lines, more);
    PairsConcat(lines, more);
    PairsConcat(more, lines);
    LeftsConcat(Pairs(lines), Pairs(more));
    LeftsConcat(Pairs(more), Pairs(lines));
    var rights := multiset(Rights(Pairs(lines + more)));
    ScoreOfConcat(Lefts(Pairs(lines)), Lefts(Pairs(more)), rights);
    ScoreOfConcat(Lefts(Pairs(more)), Lefts(Pairs(lines)), rights);
  }
}
