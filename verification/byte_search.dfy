/**
 * Byte strings and the two operations the frame extractor applies to them:
 * `bytes.find(pattern)` (first occurrence or -1) and Python's slice `s[lo:hi]`.
 */
module ByteSearch {

  newtype Byte = x: int | 0 <= x < 256

  /** `pat` occurs in `s` starting at index `i`. */
  ghost predicate OccursAt(s: seq<Byte>, pat: seq<Byte>, i: int) {
    0 <= i && i + |pat| <= |s| && s[i..i + |pat|] == pat
  }

  ghost predicate Contains(s: seq<Byte>, pat: seq<Byte>) {
    exists i :: OccursAt(s, pat, i)
  }

  /** `i` is the first occurrence of `pat` in `s`. */
  ghost predicate FirstAt(s: seq<Byte>, pat: seq<Byte>, i: int) {
    OccursAt(s, pat, i) && forall j :: 0 <= j < i ==> !OccursAt(s, pat, j)
  }

  /** The first occurrence of `pat` in `s` at or after `from`, or -1. */
  function FindFrom(s: seq<Byte>, pat: seq<Byte>, from: nat): (r: int)
    ensures r == -1 || (from <= r && OccursAt(s, pat, r))
    ensures forall j :: from <= j && (r == -1 || j < r) ==> !OccursAt(s, pat, j)
    decreases |s| - from
  {
    if from + |pat| > |s| then -1
    else if s[from..from + |pat|] == pat then from
    else FindFrom(s, pat, from + 1)
  }

  /** `s.find(pat)`: the index of the first occurrence of `pat`, or -1 when there is none. */
  function Find(s: seq<Byte>, pat: seq<Byte>): (r: int)
    ensures r == -1 <==> !Contains(s, pat)
    ensures r != -1 ==> FirstAt(s, pat, r)
  {
    FindFrom(s, pat, 0)
  }

  /** Python's `s[lo:hi]` for non-negative bounds: clamped to the length, empty when `lo >= hi`. */
  function Slice(s: seq<Byte>, lo: nat, hi: nat): seq<Byte> {
    var h := if hi <= |s| then hi else |s|;
    if lo < h then s[lo..h] else []
  }

  /** The first occurrence is unique: any index known to be first is what `Find` returns. */
  lemma FindIsFirst(s: seq<Byte>, pat: seq<Byte>, i: int)
    requires FirstAt(s, pat, i)
    ensures Find(s, pat) == i
  {
  }
}
