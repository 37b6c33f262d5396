# Advent of Code 2024, days 1 to 4, in Dafny

This project models seven small Rust programs that solve the first four
puzzles of Advent of Code 2024, and proves what each one computes.

- **Day 1, part 1: total distance.** Every input line holds two location IDs.
  Both columns are pushed into min-heaps. The heaps are drained in step, and
  the absolute differences are summed (`ListDistance`).
- **Day 1, part 2: similarity score.** The right column is counted in an
  `OccurrenceCounter` (a map from ID to count). Every left ID is multiplied by
  its count, and the products are summed (`ListSimilarity`).
- Both day-1 programs read their lines with the same `parse_into_numbers`
  (`LocationLists`).
- **Day 2, part 2: dampened reports.** A report is safe when its levels all
  rise or all fall, by 1 to 3 at each step. The program counts the reports that
  become safe once any one level is removed (`ReportSafety`).
- **Day 3, part 1: mul instructions.** The program scans corrupted memory for
  `mul(a,b)` instructions and sums their products (`MulScanner`). The parser
  pieces it shares with part 2 live in `MulSyntax`.
- **Day 3, part 2: do()/don't() switches.** Same as part 1, except that
  `do()` and `don't()` switch the multiplications on and off. The switch
  carries over from one line to the next (`ToggledScanner`).
- **Day 4, part 1: XMAS.** The program counts the occurrences of `XMAS` in a
  letter grid, in all eight directions, starting from every `X` (`XmasSearch`).
- **Day 4, part 2: X-MAS.** The program counts the `A`s that sit in the middle
  of two diagonal `MAS`, each read either way (`CrossSearch`).
- Grid geometry shared by both day-4 programs is in `GridGeometry`.

**How the inputs are represented**

- Input text is a `string`.
- An input line of numbers is a `Line`: either a sequence of already split
  `Word`s, each an integer or not one, or an `Unreadable` line that stands for
  an I/O error (`InputLines`).
- A grid is a `seq<seq<char>>`, indexed `g[y][x]`.
- `Result` and `Option` are in `Results`.
- Reversal of a sequence, used for day-2 reports and day-4 grid rows, is in
  `Sequences`.

**How the programs are modelled**

- Loops of the source become methods with loop invariants. Each method is
  proved equal to a reference function that sums or counts over the whole
  input. Properties of the puzzle are then proved about those functions.
- The day-3 scanners are specified against a per-position definition:
  - `MulCallSum` adds up the product of every well-formed `mul(a,b)` that
    starts at any position of the text.
  - `PositionTotal` does the same while tracking the switch that the
    `do()`/`don't()` positions before each call leave on.
- The proofs show that the loop's way of resuming gives exactly that total:
  - it skips text up to the next token;
  - after a failed parse it resumes where the parse stopped.
- The day-4 searches are specified by `CountAlong`/`FoundCoords` and
  `XMasAt`/`CrossCells`. The grid-wide counts are proved equal to totals over
  every cell in row-major order.
- Every recorded coordinate group is proved to spell the word.
- Classes appear where the source updates an object in place:
  - the day-1 `BinaryHeap` is `ListDistance.MinHeap`, whose state is a sorted
    sequence;
  - the day-1 counter is `ListSimilarity.OccurrenceCounter`, a map with a ghost
    multiset of everything it has counted;
  - the coordinate vector that day 4 part 2 pushes into is
    `CrossSearch.CoordLog`.

**Where day 3 resumes after a malformed call.** After a malformed call the
code resumes where parsing stopped: the `Err` payload of the last parsing
step. `MalformedCallResumes`, `ResumePointIrrelevant` and
`HandleMultResumePoint` prove that this gives the same total as resuming just
after `mul`. Parsing only ever skips `(`, `,` and digits, and no instruction
can start inside those.

## Model

| member | source | states |
|---|---|---|
| InputLines.Values | day-01-part1/src/main.rs:47-51 | the integers of a line of integer words, one per word, in order |
| LocationLists.ParseIntoNumbers | day-01-part1/src/main.rs:44-60 | an I/O error is passed on; any non-integer word gives NotParseableAsNumber before the count is checked; otherwise Ok exactly when the line holds two integers, which it returns in order, and WrongNumValuesToUnpack otherwise |
| LocationLists.Pairs | day-01-part2/src/main.rs:45-61 | one pair per line, each the pair that line parses to |
| LocationLists.Lefts | day-01-part1/src/main.rs:62-74 | the left list holds the first ID of every pair, in line order |
| LocationLists.Rights | day-01-part1/src/main.rs:62-74 | the right list holds the second ID of every pair, in line order |
| LocationLists.LeftsConcat | day-01-part1/src/main.rs:21-25 | the left list of two blocks of pairs is the two left lists joined |
| LocationLists.RightsConcat | day-01-part1/src/main.rs:21-25 | the right list of two blocks of pairs is the two right lists joined |
| LocationLists.AllParseConcat | day-01-part1/src/main.rs:21-25 | two blocks of well-formed lines make a well-formed input |
| LocationLists.PairsConcat | day-01-part1/src/main.rs:21-25 | the pairs of two blocks of lines are the pairs of each block, in order |
| LocationLists.SwappedBlocks | day-01-part1/src/main.rs:21-25 | swapping two blocks of lines leaves the multisets of left and right IDs unchanged |
| LocationLists.PairsOfPrefix | day-01-part2/src/main.rs:22-29 | each further line adds its own pair at the end |
| LocationLists.PrefixStep | day-01-part2/src/main.rs:22-29 | each further well-formed line adds its left ID to the end of the left list and its right ID to the end of the right list |
| ListDistance.Insert | day-01-part1/src/main.rs:67-69 | pushing onto the heap's ordered contents adds exactly one element |
| ListDistance.InsertAddsValue | day-01-part1/src/main.rs:67-69 | a push adds exactly the pushed value to the heap's multiset |
| ListDistance.InsertAt | day-01-part1/src/main.rs:67-69 | the pushed value goes just before the first element that is not smaller |
| ListDistance.InsertSorted | day-01-part1/src/main.rs:67-69 | a push keeps the heap's contents in ascending order |
| ListDistance.SortedHeadIsLeast | day-01-part1/src/main.rs:27-28 | the first element of an ordered sequence is its minimum, which is what pop returns |
| ListDistance.ConsSorted | day-01-part1/src/main.rs:67-69 | an element no larger than the head of an ordered sequence may go in front of it |
| ListDistance.SortOrdersValues | day-01-part1/src/main.rs:21-28 | the heap releases the pushed values in ascending order, as a permutation of them |
| ListDistance.HeadAtMost | day-01-part1/src/main.rs:27-28 | the head of an ordered sequence is at most any of its values |
| ListDistance.TailsShareValues | day-01-part1/src/main.rs:27-28 | two ordered sequences with the same values still share them after each pops its head |
| ListDistance.SortedTail | day-01-part1/src/main.rs:27-28 | what is left after a pop is still ordered |
| ListDistance.SortedUnique | day-01-part1/src/main.rs:21-28 | two ordered sequences with the same values are equal, so the release order depends only on the values pushed |
| ListDistance.SortDependsOnMultiset | day-01-part1/src/main.rs:21-28 | the release order depends only on the multiset of values pushed, not on the order of the pushes |
| ListDistance.MinHeap.constructor | day-01-part1/src/main.rs:18-19 | a new heap is empty |
| ListDistance.MinHeap.Push | day-01-part1/src/main.rs:67-69 | a push puts the value into the ordered contents and keeps them ordered |
| ListDistance.MinHeap.Pop | day-01-part1/src/main.rs:27-28 | a pop on an empty heap gives None; otherwise it removes and returns the least value |
| ListDistance.CalculateDistance | day-01-part1/src/main.rs:76-82 | the distance is the absolute difference of the two IDs, and zero exactly when they are equal |
| ListDistance.DistanceIsSymmetric | day-01-part1/src/main.rs:76-82 | the distance does not depend on the order of the two IDs |
| ListDistance.SumOfDistances | day-01-part1/src/main.rs:29-32 | the zipped sum of distances is zero exactly when the two lists agree at every position both have |
| ListDistance.SumOfDistancesZero | day-01-part1/src/main.rs:27-32 | the paired-off sum is zero exactly when the two sequences are equal |
| ListDistance.SumOfDistancesSymmetric | day-01-part1/src/main.rs:27-32 | swapping the two columns leaves the paired-off sum unchanged |
| ListDistance.TotalDependsOnMultisets | day-01-part1/src/main.rs:15-35 | the total distance depends only on the multisets of left and right IDs |
| ListDistance.TotalZero | day-01-part1/src/main.rs:15-35 | the total distance is zero exactly when the two lists hold the same IDs the same number of times |
| ListDistance.MinHeapAccum | day-01-part1/src/main.rs:62-74 | an error line is passed on and leaves both heaps unchanged; a pair pushes its left ID onto one heap and its right ID onto the other |
| ListDistance.SortedListsStep | day-01-part1/src/main.rs:21-25 | after one more line, the heaps hold the ordered left and right lists of the longer prefix |
| ListDistance.DrainAndSum | day-01-part1/src/main.rs:27-32 | draining both heaps in step sums the distances of their ordered contents, paired off position by position; the shorter heap ends empty, the longer keeps what the zip did not reach, less the one extra value popped from the first heap when it is the longer |
| ListDistance.FillHeaps | day-01-part1/src/main.rs:21-25 | on well-formed input the heaps end up holding the two columns in order; otherwise the first bad line's error is returned and the heaps hold, in order, the columns of the lines before it |
| ListDistance.FindTotalDistance | day-01-part1/src/main.rs:15-35 | on well-formed input the result is the sum of distances between the i-th smallest left and i-th smallest right ID; otherwise it is the error of the first bad line |
| ListSimilarity.ScoreOfConcat | day-01-part2/src/main.rs:31-34 | the score over two blocks of left IDs is the sum of their scores |
| ListSimilarity.UnmatchedAddsNothing | day-01-part2/src/main.rs:31-34 | a left ID that never appears on the right adds nothing |
| ListSimilarity.ScoreOfOneMoreRight | day-01-part2/src/main.rs:73-78 | counting one more right ID x raises the score by x times the number of x's on the left |
| ListSimilarity.ScoreIsSymmetric | day-01-part2/src/main.rs:16-36 | the similarity score is the same with the two columns swapped |
| ListSimilarity.ScoreAgainstNothing | day-01-part2/src/main.rs:80-82 | with nothing counted on the right, every score is zero |
| ListSimilarity.OccurrenceCounter.constructor | day-01-part2/src/main.rs:68-72 | a new counter has counted nothing |
| ListSimilarity.OccurrenceCounter.NumOccurances | day-01-part2/src/main.rs:80-82 | the number of times the ID has been counted, zero for an ID never seen |
| ListSimilarity.OccurrenceCounter.IncrementObservedCount | day-01-part2/src/main.rs:73-78 | the counted multiset gains the ID; its count rises by one and every other count is unchanged |
| ListSimilarity.Score | day-01-part2/src/main.rs:31-34 | each left ID times the number of times it was counted on the right, summed |
| ListSimilarity.AccumIntoLeftListAndRightMap | day-01-part2/src/main.rs:85-97 | an error is passed on with nothing counted; a pair appends its left ID to the list and counts its right ID |
| ListSimilarity.AccumulatedStep | day-01-part2/src/main.rs:22-29 | after one more line, the list and the counter hold the left list and the right multiset of the longer prefix |
| ListSimilarity.FindSimilarityScore | day-01-part2/src/main.rs:16-36 | on well-formed input the result is the score of the left list against the multiset of right IDs; otherwise it is the first bad line's error |
| ListSimilarity.SwappedBlocksScore | day-01-part2/src/main.rs:16-36 | swapping two blocks of input lines leaves the similarity score unchanged |
| ReportSafety.ParseIntoNumbers | day-02-part2/src/main.rs:32-44 | an I/O error is passed on; any non-integer word gives NotParseableAsNumber; otherwise the report is the line's integers in order |
| ReportSafety.Differences | day-02-part2/src/main.rs:62-70 | one difference per adjacent pair, each the earlier level minus the later |
| ReportSafety.FoldDifferences | day-02-part2/src/main.rs:62-78 | the folded set holds exactly the differences, and the flag is true exactly when every difference is between 1 and 3 in size |
| ReportSafety.PositiveDifferences | day-02-part2/src/main.rs:79-84 | all differences are positive exactly when the levels strictly fall |
| ReportSafety.NegativeDifferences | day-02-part2/src/main.rs:79-84 | all differences are negative exactly when the levels strictly rise |
| ReportSafety.ReportIsSafe | day-02-part2/src/main.rs:60-85 | a report of fewer than two levels is safe, and a safe report moves by 1 to 3 at every step |
| ReportSafety.ReportIsSafeMeaning | day-02-part2/src/main.rs:60-85 | the fold says safe exactly when the levels all rise or all fall, by 1 to 3 at each step |
| ReportSafety.ShortReportIsSafe | day-02-part2/src/main.rs:60-85 | a report with fewer than two levels is safe |
| Sequences.Reversed | day-02-part2/src/main.rs:60-85 | the same elements in the opposite order; used for a report read backwards and for a grid row read right to left |
| Sequences.ReversedTwice | day-02-part2/src/main.rs:60-85 | reversing twice gives back the sequence |
| ReportSafety.ReversedStep | day-02-part2/src/main.rs:62-70 | each difference of the reversed report is the negated difference at the mirrored position |
| ReportSafety.ReversedFalling | day-02-part2/src/main.rs:79-84 | a falling report reversed is rising |
| ReportSafety.ReversedRising | day-02-part2/src/main.rs:79-84 | a rising report reversed is falling |
| ReportSafety.ReversedGradual | day-02-part2/src/main.rs:62-78 | reversal keeps every step between 1 and 3 in size |
| ReportSafety.ReversedSafe | day-02-part2/src/main.rs:60-85 | a safe report reversed is safe |
| ReportSafety.ReversedIsSafe | day-02-part2/src/main.rs:60-85 | a report is safe exactly when its reversal is |
| ReportSafety.OneDropped | day-02-part2/src/main.rs:51-52 | the report with exactly the level at index i removed, the others kept in order |
| ReportSafety.DampenedFromMeaning | day-02-part2/src/main.rs:50-57 | trying the indices from i onward finds a safe removal exactly when removing some level at index i or later makes the report safe |
| ReportSafety.DetermineIfDampenedSafe | day-02-part2/src/main.rs:46-59 | an error is passed on; otherwise the answer is true exactly when removing some one level makes the report safe |
| ReportSafety.EmptyIsNotDampenedSafe | day-02-part2/src/main.rs:46-59 | an empty report is never counted, since there is no level to remove |
| ReportSafety.SafeTail | day-02-part2/src/main.rs:60-85 | removing the first level of a safe report leaves it safe |
| ReportSafety.SafeIsDampenedSafe | day-02-part2/src/main.rs:46-59 | every non-empty safe report is still counted with the dampener |
| ReportSafety.DampenerRescuesExample | day-02-part2/src/main.rs:46-59 | a three-level report with one bad jump is unsafe, yet safe once the dampener drops the middle level |
| ReportSafety.SmallRiseIsSafe | day-02-part2/src/main.rs:60-85 | two levels rising by 1 to 3 make a safe report |
| ReportSafety.SumSafeReports | day-02-part2/src/main.rs:87-89 | an error stops the count with that error; otherwise the count rises by one exactly for a safe report |
| ReportSafety.DampenedSafeCount | day-02-part2/src/main.rs:14-24 | the number of reports made safe by the dampener is at most the number of reports |
| ReportSafety.FindNumSafeReports | day-02-part2/src/main.rs:14-24 | on well-formed input the result counts the dampened-safe reports; otherwise it is the error of the first bad line |
| MulSyntax.ConsumeToken | day-03-part02/src/main.rs:49-60 | Ok exactly when the input starts with the token, giving the text after it; a too-short input yields the empty remainder, any other mismatch the whole input |
| MulSyntax.DigitRunLength | day-03-part02/src/main.rs:62-78 | the length of the longest run of leading digits |
| MulSyntax.LeadingNumber | day-03-part02/src/main.rs:62-78 | Ok exactly when the input starts with a digit; gives the decimal value of the longest leading digit run and the text after it; otherwise Err with the whole input |
| MulSyntax.ReadDigits | day-03-part02/src/main.rs:62-78 | the digit-scanning loop reads exactly the leading number |
| MulSyntax.ConsumeOpenParen | day-03-part02/src/main.rs:80-82 | strips a leading `(`, or fails with the input unchanged |
| MulSyntax.ConsumeComma | day-03-part02/src/main.rs:84-88 | strips a leading `,` and keeps the first operand, or fails with the remaining text |
| MulSyntax.ReadSecondNumber | day-03-part02/src/main.rs:90-93 | reads the second operand next to the first, or fails with the remaining text |
| MulSyntax.ConsumeCloseParen | day-03-part02/src/main.rs:95-98 | strips a leading `)` and keeps both operands, or fails with the remaining text |
| MulSyntax.CallArguments | day-03-part02/src/main.rs:100-109 | the argument chain always consumes text on success and never grows the input on failure |
| MulSyntax.HandleMultInstruction | day-03-part02/src/main.rs:100-109 | succeeds exactly when the argument chain does, resuming at the same text and failing with the same remainder |
| MulSyntax.HandleMultResumePoint | day-03-part02/src/main.rs:100-109 | a failed call resumes after skipping only `(`, `,` and digits |
| MulSyntax.CallArgumentsSound | day-03-part02/src/main.rs:100-109 | a successful chain read the text `(a,b)`, with a and b non-empty digit strings whose values it returns |
| MulSyntax.CallArgumentsComplete | day-03-part02/src/main.rs:100-109 | every well-formed `(a,b)` is parsed to the values of a and b, resuming right after `)` |
| MulSyntax.HandleMultMeaning | day-03-part02/src/main.rs:100-109 | a well-formed `(a,b)` yields the product of the two operands |
| MulSyntax.LeadingDigitRun | day-03-part02/src/main.rs:62-78 | a maximal digit run followed by other text is read as exactly that number |
| MulSyntax.MulCallAt | day-03-part01/src/main.rs:72-78 | a product is found only at text that starts with `mul` |
| MulSyntax.MulCallAtWellFormed | day-03-part01/src/main.rs:72-78 | text starting with `mul(a,b)` holds a call worth a times b |
| MulSyntax.MulCallAtSound | day-03-part01/src/main.rs:72-78 | a call found at the text is a well-formed `mul(a,b)` whose value is the product |
| MulSyntax.CallTextValue | day-03-part01/src/main.rs:72-78 | a single-digit call `mul(x,y)` is worth x times y |
| MulScanner.ScanForNextTokenAndConsume | day-03-part01/src/main.rs:11-16 | Ok with the text after the first occurrence of the token; if there is none, Err with the empty remainder |
| MulScanner.AvoidsMeansNoEarlierOccurrence | day-03-part01/src/main.rs:11-16 | the skipped text is exactly a prefix holding no earlier occurrence of the token |
| MulScanner.AvoidedPositionsAddNothing | day-03-part01/src/main.rs:72 | text skipped while scanning for `mul` holds no call |
| MulScanner.SkippedArgumentsAddNothing | day-03-part01/src/main.rs:80-86 | the `(`, `,` and digits passed over by a failed parse hold no call |
| MulScanner.MulStartSum | day-03-part01/src/main.rs:72-78 | the total at a `mul` is that call's value plus the total after `mul` |
| MulScanner.WellFormedCallAdds | day-03-part01/src/main.rs:80-83 | a well-formed `mul(a,b)` adds a times b and scanning goes on after it |
| MulScanner.ParseNextMul | day-03-part01/src/main.rs:72-78 | each parse attempt consumes text, so the loop terminates |
| MulScanner.ParseNextMulStep | day-03-part01/src/main.rs:72-86 | each loop step keeps the product total of the remaining text plus what was summed |
| MulScanner.SumMultiplications | day-03-part01/src/main.rs:69-90 | the result is the sum of the products of every well-formed `mul(a,b)` in the line |
| MulScanner.LinesTotalAppend | day-03-part01/src/main.rs:100-104 | the total over two blocks of lines is the sum of their totals |
| MulScanner.SumLines | day-03-part01/src/main.rs:97-109 | the program's result is the sum of every line's total |
| MulScanner.CallTextAdds | day-03-part01/src/main.rs:80-83 | a single-digit call adds its product to the total of the text after it |
| MulScanner.TwoWellFormedCalls | day-03-part01/src/main.rs:69-90 | two well-formed calls in a row add both products |
| MulScanner.MalformedCallResumes | day-03-part01/src/main.rs:84-86 | resuming where a failed parse stopped gives the same total as rescanning just after `mul` |
| MulScanner.MalformedThenWellFormed | day-03-part01/src/main.rs:69-90 | a malformed `mul(x,)` adds nothing and the call after it still counts |
| ToggledScanner.FromLiteral | day-03-part02/src/main.rs:16-25 | only the texts `mul`, `do()` and `don't()` name an instruction |
| ToggledScanner.Literal | day-03-part02/src/main.rs:16-25 | each instruction's literal is read back by `From<&str>` as that instruction, and begins with `m` or `d` |
| ToggledScanner.FromLiteralAgrees | day-03-part02/src/main.rs:28-34 | a literal that `From<&str>` accepts is matched by the scanner, in its try order, as the same instruction |
| ToggledScanner.InstructionAt | day-03-part02/src/main.rs:10-25 | names an instruction only where its literal starts, and none exactly where no literal starts |
| ToggledScanner.InstructionInitial | day-03-part02/src/main.rs:27-47 | no instruction starts at a character other than `m` or `d` |
| ToggledScanner.NextInstruction | day-03-part02/src/main.rs:27-47 | Ok with the first instruction and the text after it, with no instruction in between; Err with the empty remainder when there is none |
| ToggledScanner.QuietMeansNoEarlierInstruction | day-03-part02/src/main.rs:27-47 | the scanned-over prefix holds no instruction at any position |
| ToggledScanner.ScanForNextInstruction | day-03-part02/src/main.rs:27-47 | the scanning loop finds exactly the next instruction |
| ToggledScanner.FirstLiteralFound | day-03-part02/src/main.rs:31-35 | the first literal, in the order mul, do(), don't(), that begins the text is the instruction found, and scanning resumes after it |
| ToggledScanner.NoLiteralFound | day-03-part02/src/main.rs:38-44 | when no literal begins the text, the result is that of the text one character further on |
| ToggledScanner.Adds | day-03-part02/src/main.rs:129-131 | adding a product changes the total and keeps the switch |
| ToggledScanner.QuietPositionsChangeNothing | day-03-part02/src/main.rs:115 | text with no instruction changes neither the switch nor the total |
| ToggledScanner.LiteralTotal | day-03-part02/src/main.rs:115-131 | at an instruction literal the total is the call's value when enabled (for `mul`), or the total of the rest with the switch set (for `do()`/`don't()`) |
| ToggledScanner.ResumePointIrrelevant | day-03-part02/src/main.rs:117-127 | after a failed call, resuming where parsing stopped gives the same total as resuming after `mul` |
| ToggledScanner.ResumeAfterCall | day-03-part02/src/main.rs:117 | after a successful call, resuming after `)` gives the same total as resuming after `mul` |
| ToggledScanner.MulStep | day-03-part02/src/main.rs:115-131 | a `mul` step adds the product only when enabled and keeps the total of the rest |
| ToggledScanner.ToggleStep | day-03-part02/src/main.rs:118-125 | `do()` turns the switch on and `don't()` turns it off for the rest of the text |
| ToggledScanner.NoInstructionStep | day-03-part02/src/main.rs:127 | when no instruction is left, nothing more is added and the switch is kept |
| ToggledScanner.ApplyInstruction | day-03-part02/src/main.rs:115-127 | `do()` enables, `don't()` disables, a `mul` or no instruction keeps the switch; only a well-formed `mul` yields a non-zero product, whatever the switch (the loop, not this step, checks the switch) |
| ToggledScanner.InstructionStep | day-03-part02/src/main.rs:115-132 | one step consumes text and keeps the total of the rest plus what it adds |
| ToggledScanner.LoopStep | day-03-part02/src/main.rs:114-132 | the loop invariant survives one step |
| ToggledScanner.SumMultiplications | day-03-part02/src/main.rs:111-136 | the switch and the sum are exactly the per-position total of the line from the given switch |
| ToggledScanner.NoInstructionNoEffect | day-03-part02/src/main.rs:111-136 | a line with no instruction leaves the switch and adds nothing |
| ToggledScanner.DisabledWithoutDoAddsNothing | day-03-part02/src/main.rs:111-136 | once disabled, a line with no `do()` adds nothing and stays disabled |
| ToggledScanner.LinesTotalAppend | day-03-part02/src/main.rs:147-153 | two blocks of lines chain, the switch of the first carrying into the second |
| ToggledScanner.LinesTotalLast | day-03-part02/src/main.rs:147-153 | one more line is read from the switch the earlier lines left, adding its own total |
| ToggledScanner.SumLines | day-03-part02/src/main.rs:143-159 | the program's result is the total over all lines, starting enabled, with the switch carried across lines |
| ToggledScanner.CallTextTotal | day-03-part02/src/main.rs:115-123 | a single-digit call adds its product only when enabled |
| ToggledScanner.ToggledCalls | day-03-part02/src/main.rs:111-136 | in `don't()mul(x,y)do()mul(z,w)` only the second product counts |
| ToggledScanner.SwitchCarriesAcrossLines | day-03-part02/src/main.rs:147-153 | a `don't()` on one line disables the calls on the next |
| GridGeometry.IsValidCoord | day-04-part02/src/main.rs:114-116 | a coordinate is valid exactly when it lies within the grid's height and its first row's width; on a rectangular grid it then lies within its own row |
| GridGeometry.LetterAt | day-04-part02/src/main.rs:118-122 | the letter read is one of its row's letters, and on a rectangular grid it is the letter held at that cell |
| GridGeometry.NewPosition | day-04-part01/src/main.rs:103-122 | Some exactly when the moved position lies inside the grid's width and height, and then it is that position |
| GridGeometry.NewPositionIsValid | day-04-part02/src/main.rs:88-107 | a position that new_position returns is a valid coordinate |
| GridGeometry.AllCoordinates | day-04-part01/src/main.rs:35-40 | every coordinate of the grid, each once, in row-major order |
| GridGeometry.CountLetter | day-04-part01/src/main.rs:20 | the number of listed cells holding a given letter, at most the number of cells listed |
| GridGeometry.AllCoordinatesValid | day-04-part02/src/main.rs:33-38 | every coordinate listed is valid |
| XmasSearch.LookUp | day-04-part01/src/main.rs:53-58 | finds the partner of a key exactly when the table holds that key |
| XmasSearch.GetNextChar | day-04-part01/src/main.rs:51-58 | X is followed by M, M by A, A by S, and nothing follows any other letter |
| XmasSearch.NextCharSorted | day-04-part01/src/main.rs:51-57 | the table's keys are strictly increasing, as its binary search needs |
| XmasSearch.DirectionsAreUnit | day-04-part01/src/main.rs:61-70 | each of the eight directions is a non-zero step of at most one cell per axis |
| XmasSearch.PathsAreRays | day-04-part01/src/main.rs:61-70 | each path is the first, second and third cell along its direction |
| XmasSearch.GetNextThreeCoords | day-04-part01/src/main.rs:90-101 | Ok exactly when all three cells lie on the grid, giving them in path order |
| XmasSearch.CountAlong | day-04-part01/src/main.rs:60-88 | the number of directions checked that spell XMAS is at most the number checked |
| XmasSearch.Ray | day-04-part01/src/main.rs:61-70 | the three cells after the origin along a direction |
| XmasSearch.FoundCoords | day-04-part01/src/main.rs:76-84 | four coordinates are recorded per word found |
| XmasSearch.PathMatches | day-04-part01/src/main.rs:72-78 | a path is accepted exactly when the three cells of its ray lie on the grid, and then it is that ray; from a cell on the grid, exactly when the ray's far end is on the grid; it is accepted and reads MAS exactly when MAS lies along the direction |
| XmasSearch.SearchFromCoord | day-04-part01/src/main.rs:60-88 | returns the number of directions that spell XMAS (at most eight), with four coordinates per word found |
| XmasSearch.SpellsXmas | day-04-part01/src/main.rs:124-130 | three cells that read M, A, S are three distinct cells |
| XmasSearch.FoundCoordsSpellXmas | day-04-part01/src/main.rs:124-130 | every recorded group of four cells reads M, A, S after the origin along a ray |
| XmasSearch.RayReadsMas | day-04-part01/src/main.rs:124-130 | a direction that spells XMAS has M, A and S on its ray |
| XmasSearch.CountAlongPositive | day-04-part01/src/main.rs:60-88 | a cell counts at least one word exactly when some direction spells XMAS |
| XmasSearch.XmasGroupsAppend | day-04-part01/src/main.rs:22-24 | joining two lists of spelled groups gives a list of spelled groups |
| XmasSearch.FoundCoordsAreXmas | day-04-part01/src/main.rs:19-27 | from an X, every recorded group spells XMAS |
| XmasSearch.AppendFound | day-04-part01/src/main.rs:22-24 | extending the record with an X cell's finds keeps every group spelling XMAS |
| XmasSearch.XmasTotal | day-04-part01/src/main.rs:19-27 | the total from a list of cells is at most eight per cell holding X, and so at most eight per cell |
| XmasSearch.XmasTotalZero | day-04-part01/src/main.rs:19-27 | the total is zero exactly when no X cell in the list spells XMAS in any direction |
| XmasSearch.XmasCoords | day-04-part01/src/main.rs:19-25 | the coordinates recorded from the X cells of a list, in list order, four per word counted |
| XmasSearch.TotalStep | day-04-part01/src/main.rs:19-27 | one more cell adds its count and its finds if it holds an X, and nothing otherwise |
| XmasSearch.CountXmasInGrid | day-04-part01/src/main.rs:17-27 | the count is the total over every cell in row-major order, at most eight per X; the record is exactly the finds of every X cell in that order, four coordinates per word, each group spelling XMAS |
| XmasSearch.CountXmasFrom | day-04-part01/src/main.rs:19-27 | the count over a list of cells is their total; the record is exactly the finds of each X cell in list order, every group spelling XMAS |
| XmasSearch.SingleRowExample | day-04-part01/src/main.rs:60-88 | in the grid `XMAS` the X at the left finds one word, at (0,0) to (3,0) |
| XmasSearch.SingleRowCells | day-04-part01/src/main.rs:35-40 | the one-row grid `XMAS` lists its four cells left to right |
| XmasSearch.NonXAddsNothing | day-04-part01/src/main.rs:20 | a cell that does not hold X adds nothing to the total |
| XmasSearch.SingleRowTotal | day-04-part01/src/main.rs:19-27 | the grid `XMAS` holds exactly one word |
| CrossSearch.CoordLog.constructor | day-04-part02/src/main.rs:17 | a new coordinate vector is empty |
| CrossSearch.CoordLog.Push | day-04-part02/src/main.rs:62-66 | a push appends the coordinate at the end |
| CrossSearch.GetNextTwoCoords | day-04-part02/src/main.rs:76-86 | Ok exactly when both cells lie on the grid, giving them in path order |
| CrossSearch.SpellsMas | day-04-part02/src/main.rs:109-112 | two cells that read M and S, in either order, are distinct cells |
| CrossSearch.SpellsMasEitherOrder | day-04-part02/src/main.rs:109-112 | a diagonal reads MAS one way exactly when it reads SAM the other way |
| CrossSearch.CrossCells | day-04-part02/src/main.rs:61-67 | the five cells of a cross, the centre first |
| CrossSearch.PathsMatch | day-04-part02/src/main.rs:50-60 | both diagonals lie on the grid exactly when the centre is on the grid but not on its border; both are accepted and read MAS exactly when a cross is centred there, and then they are its four corner cells |
| CrossSearch.SearchFromCoord | day-04-part02/src/main.rs:50-74 | true exactly when both diagonals through the cell read MAS either way; then the five cells are appended to the vector, and otherwise it is unchanged |
| CrossSearch.CrossTotal | day-04-part02/src/main.rs:19-25 | the number of crosses is at most the number of cells holding A, and so at most one per cell |
| CrossSearch.CrossCoords | day-04-part02/src/main.rs:19-25 | five recorded coordinates per cross |
| CrossSearch.CellStep | day-04-part02/src/main.rs:19-25 | one more cell adds one exactly when it holds an A at the centre of a cross |
| CrossSearch.CountCrossesInGrid | day-04-part02/src/main.rs:17-25 | the count is the number of crosses over every cell in row-major order, never more than the number of A cells, and the vector grows by exactly their cells |
| CrossSearch.CountCrossesFrom | day-04-part02/src/main.rs:19-25 | the count over a list of cells is their cross total, at most the number of A cells among them, and the vector grows by exactly their cross cells |
| CrossSearch.CrossGroupsAppend | day-04-part02/src/main.rs:19-25 | joining two lists of cross groups gives a list of cross groups |
| CrossSearch.CrossCoordsAreCrosses | day-04-part02/src/main.rs:19-25 | every recorded group of five cells is an A with MAS on both diagonals |
| CrossSearch.Mirrored | day-04-part02/src/main.rs:109-112 | the grid with every row reversed |
| CrossSearch.MirroredCross | day-04-part02/src/main.rs:50-74 | a cross found in a grid is found at the mirrored position of the mirrored grid, and the other way round |
| CrossSearch.BorderHasNoCross | day-04-part02/src/main.rs:57-60 | no cross is centred on the border of the grid |
| CrossSearch.CrossExample | day-04-part02/src/main.rs:50-74 | the grid `M.S/.A./M.S` holds a cross at its centre, which counts one when listed alone |
| CrossSearch.NonAAddsNothing | day-04-part02/src/main.rs:19-24 | a cell not holding A adds nothing to the count |
| CrossSearch.SquareCells | day-04-part02/src/main.rs:19 | a three-by-three grid lists its nine cells row by row |
| CrossSearch.SquareTotal | day-04-part02/src/main.rs:19-25 | the nine cells of `M.S/.A./M.S` hold one cross |
| CrossSearch.CrossGridTotal | day-04-part02/src/main.rs:19-25 | over every cell of `M.S/.A./M.S` the program counts exactly one cross |
| CrossSearch.NoCrossExample | day-04-part02/src/main.rs:50-74 | the grid `M.M/.A./M.S` holds no cross, since one diagonal reads MAM |

## Left out

- I/O and the `main` functions are not modelled:
  - opening files, `BufReader` and `lines()`;
  - the command-line arguments and the `assert!` on them;
  - `build_puzzle_map_from_file`;
  - `println!`.
- In the model, a line of numbers is already split into words. An I/O error on
  a line is the `Unreadable` line.
- Day 3 takes its lines as strings. An I/O error while reading day-3 lines
  (which `main` passes on) is not modelled.
- `str::split_whitespace` and `str::parse::<i32>` are taken as given: a word is
  either an integer or not one.
- The payloads of `ParseIntError` and `io::Error` are abstracted to the error
  variant alone.
- `draw_board` on both day-4 parts is not modelled; it only prints.
- The debugging `println!` inside `is_valid_coord` of day 4 part 1 is not
  modelled.
- 32-bit and `usize` arithmetic is unbounded in the model. No overflow or wrap
  of an `i32` product, sum or parsed number is modelled.
- `read_digits` converts with `parse().unwrap()`, which panics on numbers
  outside `i32`. This panic is not modelled: digit runs have their full
  decimal value.
- Only ASCII digits count as digits. `char::is_numeric` also accepts other
  Unicode numerals, which `parse` would then reject; this is not modelled.
  Byte-offset slicing of `&str` becomes slicing of character sequences.
- `BinaryHeap` is modelled by its observable behaviour (an ordered sequence),
  not by its binary-heap layout.
- `HashMap` is modelled as a Dafny `map`. The `HashSet<i32>` into which the
  day-2 `report_is_safe` folds every difference is a Dafny `set<int>`. The
  `HashSet` of `draw_board` is not modelled.
- The day-4 models require a rectangular grid: every row as wide as the first
  (`IsRectangular`). `build_puzzle_map_from_file` also accepts files with rows
  of different widths. On such a grid, bounds are checked against the first
  row's width, and `letter_at` can panic on a shorter row. Ragged grids and
  that panic are not modelled.
- `get_next_char` looks its table up with `binary_search_by`. The model uses a
  linear lookup, which is the same on this sorted table.
- Day 3 `sum_multiplications` returns `Result<_, String>`, but its `Err` is
  never built. The model returns the value alone.
- In day 1 part 2, `accum_into_left_list_and_right_map` moves the counter in
  and back out. The model updates one counter in place.
- ListDistance.TotalDependsOnMultisets: proved for any two reorderings with
  the same multisets of IDs. For whole inputs, only the swap of two blocks of
  lines (LocationLists.SwappedBlocks) is proved; an arbitrary permutation of
  lines is not.
- ListSimilarity.SwappedBlocksScore: covers swapping two blocks of lines, not
  an arbitrary permutation of the input lines.
- MulScanner.TwoWellFormedCalls, MulScanner.MalformedThenWellFormed,
  ToggledScanner.ToggledCalls and ToggledScanner.CallTextTotal: stated for
  single-digit operands only. The general statements are
  MulScanner.WellFormedCallAdds and MulSyntax.CallArgumentsComplete.
