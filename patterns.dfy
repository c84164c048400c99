/** The fragment of Python's `re` that the field validators use: a pattern
    anchored with `^` is a sequence of pieces, each a literal character, a
    character class repeated between `lo` and `hi` times, `\Z` (end of
    string) or `$` (end of string, or just before one final newline).

    The matcher is greedy: a class run takes as many characters as it may.
    In every pattern of this model a class run is followed by a piece that
    no character of that class can start, so backtracking into a run could
    never succeed and greedy matching decides the same language as Python's
    backtracking matcher. */
module Patterns {
  import opened Text

  datatype Piece =
    | Lit(c: char)
    | Run(inClass: char -> bool, lo: nat, hi: Bound)
    | EndOfString        // `\Z`
    | EndOrFinalNewline  // `$` without re.MULTILINE

  datatype Bound = AtMost(n: nat) | Unbounded

  /** How many characters a class run consumes at the front of `s`. */
  function Taken(s: string, inClass: char -> bool, hi: Bound): (k: nat)
    ensures k <= |s|
    ensures forall i :: 0 <= i < k ==> inClass(s[i])
    ensures hi.AtMost? ==> k <= hi.n
  {
    var run := RunLength(s, inClass);
    match hi
    case AtMost(n) => Min(run, n)
    case Unbounded => run
  }

  /** `re.match(pattern, s)` is not None, for an anchored pattern. */
  function Matches(p: seq<Piece>, s: string): bool
    decreases |p|
  {
    if |p| == 0 then true
    else match p[0]
      case Lit(c) => |s| > 0 && s[0] == c && Matches(p[1..], s[1..])
      case Run(inClass, lo, hi) =>
        var k := Taken(s, inClass, hi);
        lo <= k && Matches(p[1..], s[k..])
      case EndOfString => |s| == 0 && Matches(p[1..], s)
      case EndOrFinalNewline => (s == "" || s == "\n") && Matches(p[1..], s)
  }
}
