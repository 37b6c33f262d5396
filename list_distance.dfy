/** Day 1, part 1: pair the smallest left ID with the smallest right ID,
    the second smallest with the second smallest, and so on, and add up
    how far apart the two IDs of each pair are. The program sorts each list
    by pushing it into a min-heap and draining the heap. */
module ListDistance {
  import opened Results
  import opened InputLines
  import opened LocationLists

  predicate Sorted(s: seq<int>) {
    forall i, j | 0 <= i < j < |s| :: s[i] <= s[j]
  }

  /** `v` placed into a list after the leading elements not above it; in a
      sorted list, that is its place in order. */
  function Insert(s: seq<int>, v: int): (r: seq<int>)
    ensures |r| == |s| + 1
  {
    if s == [] then [v]
    else if s[0] <= v then [s[0]] + Insert(s[1..], v)
    else [v] + s
  }

  /** Inserting adds exactly the one value. */
  lemma {:induction false} InsertAddsValue(s: seq<int>, v: int)
    ensures multiset(Insert(s, v)) == multiset(s) + multiset{v}
  {
    if s != [] && s[0] <= v {
      var tail := s[1..];
      InsertAddsValue(tail, v);
      assert Insert(s, v) == [s[0]] + Insert(tail, v);
      assert multiset(s) == multiset{s[0]} + multiset(tail) by {
        assert s == [s[0]] + tail;
      }
    }
  }

  /** Where `Insert` puts the new value: after the first `i` elements when
      they are all at most `v` and the next one, if any, is above it. */
  lemma {:induction false} InsertAt(s: seq<int>, v: int, i: nat)
    requires i <= |s| && (forall j | 0 <= j < i :: s[j] <= v) && (i < |s| ==> s[i] > v)
    ensures Insert(s, v) == s[..i] + [v] + s[i..]
  {
    if i == 0 {
      assert s[i..] == s;
    } else {
      var t := s[1..];
      InsertAt(t, v, i - 1);
      assert s[..i] == [s[0]] + t[..i - 1];
      assert s[i..] == t[i - 1..];
    }
  }

  /** The head of a sorted list is at most every value in it. */
  lemma SortedHeadIsLeast(s: seq<int>)
    requires Sorted(s) && s != []
    ensures forall x | x in multiset(s) :: s[0] <= x
  {
    forall x | x in multiset(s)
      ensures s[0] <= x
    {
      var k :| 0 <= k < |s| && s[k] == x;
    }
  }

  /** A value at most every element of a sorted list, put in front, keeps it sorted. */
  lemma ConsSorted(x: int, s: seq<int>)
    requires Sorted(s) && forall y | y in multiset(s) :: x <= y
    ensures Sorted([x] + s)
  {
    var r := [x] + s;
    forall i, j | 0 <= i < j < |r|
      ensures r[i] <= r[j]
    {
      if i == 0 {
        assert r[j] == s[j - 1] && s[j - 1] in multiset(s);
      } else {
        assert r[i] == s[i - 1] && r[j] == s[j - 1];
      }
    }
  }

  /** Inserting into a sorted list keeps it sorted. */
  lemma {:induction false} InsertSorted(s: seq<int>, v: int)
    requires Sorted(s)
    ensures Sorted(Insert(s, v))
    decreases |s|
  {
    if s == [] {
    } else if s[0] <= v {
      var tail := s[1..];
      assert Sorted(tail);
      InsertSorted(tail, v);
      InsertAddsValue(tail, v);
      SortedHeadIsLeast(s);
      assert s == [s[0]] + tail;
      assert forall y | y in multiset(Insert(tail, v)) :: s[0] <= y by {
        forall y | y in multiset(Insert(tail, v))
          ensures s[0] <= y
        {
          assert y in multiset(tail) || y == v;
        }
      }
      ConsSorted(s[0], Insert(tail, v));
    } else {
      SortedHeadIsLeast(s);
      ConsSorted(v, s);
    }
  }

  /** The values in ascending order, as pushing them one by one into a
      sorted list leaves them. */
  function Sort(s: seq<int>): (r: seq<int>)
    ensures |r| == |s|
  {
    if s == [] then [] else Insert(Sort(s[..|s| - 1]), s[|s| - 1])
  }

  /** `Sort` orders the values and keeps each as often as it occurs. */
  lemma {:induction false} SortOrdersValues(s: seq<int>)
    ensures Sorted(Sort(s)) && multiset(Sort(s)) == multiset(s)
    decreases |s|
  {
    if s != [] {
      var init, last := s[..|s| - 1], s[|s| - 1];
      SortOrdersValues(init);
      InsertSorted(Sort(init), last);
      InsertAddsValue(Sort(init), last);
      assert s == init + [last];
    }
  }

  /** A value of a sorted list is at least its head. */
  lemma HeadAtMost(s: seq<int>, x: int)
    requires Sorted(s) && x in multiset(s)
    ensures s != [] && s[0] <= x
  {
    var k :| 0 <= k < |s| && s[k] == x;
  }

  /** Two lists with the same values and the same head have tails with the same values. */
  lemma TailsShareValues(s: seq<int>, t: seq<int>)
    requires s != [] && t != [] && s[0] == t[0] && multiset(s) == multiset(t)
    ensures multiset(s[1..]) == multiset(t[1..])
  {
    assert s == [s[0]] + s[1..] && t == [t[0]] + t[1..];
    var m, a, b := multiset{s[0]}, multiset(s[1..]), multiset(t[1..]);
    assert m + a == m + b;
    forall x
      ensures a[x] == b[x]
    {
      assert (m + a)[x] == (m + b)[x];
    }
  }

  lemma SortedTail(s: seq<int>)
    requires Sorted(s) && s != []
    ensures Sorted(s[1..])
  {
  }

  /** Two sorted lists with the same values, as often, are the same list. */
  lemma {:induction false} SortedUnique(s: seq<int>, t: seq<int>)
    requires Sorted(s) && Sorted(t) && multiset(s) == multiset(t)
    ensures s == t
    decreases |s|
  {
    if s == [] {
      assert |t| == |multiset(t)| == 0;
    } else {
      HeadAtMost(t, s[0]);
      HeadAtMost(s, t[0]);
      TailsShareValues(s, t);
      SortedTail(s);
      SortedTail(t);
      SortedUnique(s[1..], t[1..]);
      assert s == [s[0]] + s[1..] && t == [t[0]] + t[1..];
    }
  }

  /** Sorting depends only on the values and how often each occurs. */
  lemma SortDependsOnMultiset(s: seq<int>, t: seq<int>)
    requires multiset(s) == multiset(t)
    ensures Sort(s) == Sort(t)
  {
    SortOrdersValues(s);
    SortOrdersValues(t);
    SortedUnique(Sort(s), Sort(t));
  }

  /** `BinaryHeap<Reverse<i32>>`: a min-heap, represented by its contents
      in ascending order. */
  class MinHeap {
    var items: seq<int>

    ghost predicate Valid()
      reads this
    {
      Sorted(items)
    }

    constructor()
      ensures Valid() && items == []
    {
      items := [];
    }

    /** `push`: the new value joins the contents. */
    method Push(v: int)
      requires Valid()
      modifies this
      ensures Valid() && items == Insert(old(items), v)
    {
      var i := 0;
      while i < |items| && items[i] <= v
        invariant 0 <= i <= |items|
        invariant forall j | 0 <= j < i :: items[j] <= v
      {
        i := i + 1;
      }
      InsertAt(items, v, i);
      InsertSorted(items, v);
      items := items[..i] + [v] + items[i..];
    }

    /** `pop`: the least value, removed; nothing from an empty heap. */
    method Pop() returns (r: Option<int>)
      requires Valid()
      modifies this
      ensures Valid()
      ensures old(items) == [] ==> r == None && items == []
      ensures old(items) != [] ==> r == Some(old(items)[0]) && items == old(items)[1..]
      ensures r.Some? ==> r.value in old(items) && forall x | x in old(items) :: r.value <= x
    {
      if items == [] {
        return None;
      }
      SortedHeadIsLeast(items);
      r := Some(items[0]);
      items := items[1..];
    }
  }

  /** `calculate_distance`: how far apart the two IDs of a pair are. */
  function CalculateDistance(numbers: (int, int)): (r: nat)
    ensures r == numbers.0 - numbers.1 || r == numbers.1 - numbers.0
    ensures r == 0 <==> numbers.0 == numbers.1
  {
    var (a, b) := numbers;
    if a - b < 0 then b - a else a - b
  }

  lemma DistanceIsSymmetric(a: int, b: int)
    ensures CalculateDistance((a, b)) == CalculateDistance((b, a))
  {
  }

  /** The zip, map and fold of `find_total_distance`: the distances of the
      pairs at equal positions, added up; the longer list's extra values
      are not paired. */
  function SumOfDistances(xs: seq<int>, ys: seq<int>): (r: nat)
    ensures r == 0 <==> forall i | 0 <= i < |xs| && i < |ys| :: xs[i] == ys[i]
  {
    if xs == [] || ys == [] then 0
    else CalculateDistance((xs[0], ys[0])) + SumOfDistances(xs[1..], ys[1..])
  }

  /** Lists of equal length are zero apart exactly when they are equal. */
  lemma {:induction false} SumOfDistancesZero(xs: seq<int>, ys: seq<int>)
    requires |xs| == |ys|
    ensures SumOfDistances(xs, ys) == 0 <==> xs == ys
  {
    if xs != [] {
      SumOfDistancesZero(xs[1..], ys[1..]);
      if xs[0] == ys[0] && xs[1..] == ys[1..] {
        assert xs == [xs[0]] + xs[1..] && ys == [ys[0]] + ys[1..];
      }
    }
  }

  /** Swapping the two lists leaves the total as it was. */
  lemma {:induction false} SumOfDistancesSymmetric(xs: seq<int>, ys: seq<int>)
    ensures SumOfDistances(xs, ys) == SumOfDistances(ys, xs)
  {
    if xs != [] && ys != [] {
      SumOfDistancesSymmetric(xs[1..], ys[1..]);
      DistanceIsSymmetric(xs[0], ys[0]);
    }
  }

  /** The total distance between two lists: the sum over the sorted lists. */
  function TotalDistance(lefts: seq<int>, rights: seq<int>): nat {
    SumOfDistances(Sort(lefts), Sort(rights))
  }

  /** The total depends only on which IDs each list holds and how often,
      not on their order. */
  lemma TotalDependsOnMultisets(lefts: seq<int>, rights: seq<int>, lefts': seq<int>, rights': seq<int>)
    requires multiset(lefts) == multiset(lefts') && multiset(rights) == multiset(rights')
    ensures TotalDistance(lefts, rights) == TotalDistance(lefts', rights')
  {
    SortDependsOnMultiset(lefts, lefts');
    SortDependsOnMultiset(rights, rights');
  }

  /** Two lists of the same length are zero apart exactly when they hold the
      same IDs, as often. */
  lemma TotalZero(lefts: seq<int>, rights: seq<int>)
    requires |lefts| == |rights|
    ensures TotalDistance(lefts, rights) == 0 <==> multiset(lefts) == multiset(rights)
  {
    var sl, sr := Sort(lefts), Sort(rights);
    SumOfDistancesZero(sl, sr);
    SortOrdersValues(lefts);
    SortOrdersValues(rights);
    if multiset(lefts) == multiset(rights) {
      SortDependsOnMultiset(lefts, rights);
    }
  }

  /** `min_heap_accum`: push both IDs of a parsed line, or pass the error on. */
  method MinHeapAccum(aHeap: MinHeap, bHeap: MinHeap, nextItem: Result<(int, int), Error>) returns (r: Result<(), Error>)
    requires aHeap != bHeap && aHeap.Valid() && bHeap.Valid()
    modifies aHeap, bHeap
    ensures aHeap.Valid() && bHeap.Valid()
    ensures nextItem.Err? ==> r == Err(nextItem.error)
                              && aHeap.items == old(aHeap.items) && bHeap.items == old(bHeap.items)
    ensures nextItem.Ok? ==> r.Ok?
                             && aHeap.items == Insert(old(aHeap.items), nextItem.value.0)
                             && bHeap.items == Insert(old(bHeap.items), nextItem.value.1)
  {
    match nextItem
    case Err(e) => return Err(e);
    case Ok((a, b)) =>
      aHeap.Push(a);
      bHeap.Push(b);
      return Ok(());
  }

  /** `xs` and `ys` are the sorted left and right lists of `lines`. */
  ghost predicate SortedLists(lines: seq<Line>, xs: seq<int>, ys: seq<int>) {
    AllParse(lines) && xs == Sort(Lefts(Pairs(lines))) && ys == Sort(Rights(Pairs(lines)))
  }

  /** One more line that parses inserts its pair into the sorted lists. */
  lemma SortedListsStep(lines: seq<Line>, i: nat, xs: seq<int>, ys: seq<int>)
    requires i < |lines| && SortedLists(lines[..i], xs, ys) && ParseIntoNumbers(lines[i]).Ok?
    ensures var p := ParseIntoNumbers(lines[i]).value;
            SortedLists(lines[..i + 1], Insert(xs, p.0), Insert(ys, p.1))
  {
    PrefixStep(lines, i);
    var before, p := Pairs(lines[..i]), ParseIntoNumbers(lines[i]).value;
    assert (Lefts(before) + [p.0])[..|before|] == Lefts(before);
    assert (Rights(before) + [p.1])[..|before|] == Rights(before);
  }

  /** Draining the heaps: pop the least of each while both have one, and
      add up the distances. */
  method DrainAndSum(aHeap: MinHeap, bHeap: MinHeap) returns (result: int)
    requires aHeap != bHeap && aHeap.Valid() && bHeap.Valid()
    modifies aHeap, bHeap
    ensures result == SumOfDistances(old(aHeap.items), old(bHeap.items))
    ensures |old(aHeap.items)| <= |old(bHeap.items)| ==>
              aHeap.items == [] && bHeap.items == old(bHeap.items)[|old(aHeap.items)|..]
    ensures |old(aHeap.items)| > |old(bHeap.items)| ==>
              aHeap.items == old(aHeap.items)[|old(bHeap.items)| + 1..] && bHeap.items == []
  {
    result := 0;
    ghost var popped := 0;
    while true
      invariant aHeap.Valid() && bHeap.Valid()
      invariant popped <= |old(aHeap.items)| && popped <= |old(bHeap.items)|
      invariant aHeap.items == old(aHeap.items)[popped..] && bHeap.items == old(bHeap.items)[popped..]
      invariant result + SumOfDistances(aHeap.items, bHeap.items) == SumOfDistances(old(aHeap.items), old(bHeap.items))
      decreases |aHeap.items|
    {
      var a := aHeap.Pop();
      if a.None? {
        break;
      }
      var b := bHeap.Pop();
      if b.None? {
        break;
      }
      result := result + CalculateDistance((a.value, b.value));
      popped := popped + 1;
    }
  }

  /** The `try_fold` of `find_total_distance`: push the IDs of each line
      into the heaps, stopping at the first line that does not hold two
      integers. */
  method FillHeaps(lines: seq<Line>, aHeap: MinHeap, bHeap: MinHeap) returns (r: Result<(), Error>)
    requires aHeap != bHeap && aHeap.Valid() && bHeap.Valid() && aHeap.items == [] && bHeap.items == []
    modifies aHeap, bHeap
    ensures aHeap.Valid() && bHeap.Valid()
    ensures AllParse(lines) ==> r.Ok?
                                && aHeap.items == Sort(Lefts(Pairs(lines)))
                                && bHeap.items == Sort(Rights(Pairs(lines)))
    ensures !AllParse(lines) ==>
              r.Err? && exists k | 0 <= k < |lines| ::
                && ParseIntoNumbers(lines[k]) == Err(r.error) && AllParse(lines[..k])
                && aHeap.items == Sort(Lefts(Pairs(lines[..k])))
                && bHeap.items == Sort(Rights(Pairs(lines[..k])))
  {
    assert lines[..0] == [];
    for i := 0 to |lines|
      invariant aHeap.Valid() && bHeap.Valid()
      invariant SortedLists(lines[..i], aHeap.items, bHeap.items)
    {
      ghost var xs, ys := aHeap.items, bHeap.items;
      var item := ParseIntoNumbers(lines[i]);
      var accum := MinHeapAccum(aHeap, bHeap, item);
      if accum.Err? {
        assert ParseIntoNumbers(lines[i]) == Err(accum.error) && !ParseIntoNumbers(lines[i]).Ok?;
        return accum;
      }
      SortedListsStep(lines, i, xs, ys);
    }
    assert lines[..|lines|] == lines;
    return Ok(());
  }

  /** `find_total_distance` on lines already read: fill both heaps, then
      drain them in ascending order and add up the distances. */
  method FindTotalDistance(lines: seq<Line>) returns (r: Result<int, Error>)
    ensures AllParse(lines) ==> r == Ok(TotalDistance(Lefts(Pairs(lines)), Rights(Pairs(lines))))
    ensures !AllParse(lines) ==>
              r.Err? && exists k | 0 <= k < |lines| ::
                ParseIntoNumbers(lines[k]) == Err(r.error) && AllParse(lines[..k])
  {
    var aHeap := new MinHeap();
    var bHeap := new MinHeap();
    var filled := FillHeaps(lines, aHeap, bHeap);
    if filled.Err? {
      return Err(filled.error);
    }
    var result := DrainAndSum(aHeap, bHeap);
    return Ok(result);
  }
}
