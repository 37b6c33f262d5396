/** The shape in which the number-reading programs (days 1 and 2) see their
    input: each line as read by `BufReader::lines`, already split on
    whitespace. Whether a word is an integer is decided by the standard
    library's `str::parse`, which is not part of this model; a word is either
    the integer it denotes or a word that does not parse. */
module InputLines {

  datatype Word = Int(value: int) | NotAnInt

  /** A line of input, or the I/O error reading it produced. */
  datatype Line = Line(words: seq<Word>) | Unreadable

  predicate AllInts(words: seq<Word>) {
    forall i | 0 <= i < |words| :: words[i].Int?
  }

  /** The integers of a line all of whose words parse. */
  function Values(words: seq<Word>): (r: seq<int>)
    requires AllInts(words)
    ensures |r| == |words|
    ensures forall i | 0 <= i < |words| :: r[i] == words[i].value
  {
    if words == [] then [] else [words[0].value] + Values(words[1..])
  }
}
