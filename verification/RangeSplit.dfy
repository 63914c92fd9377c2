/** Cutting a range of salts or builder codes into one segment for each worker. */
module RangeSplit {

  type Segment = (nat, nat)    // first, and how many

  /** `effective_threads`: no more workers than asked for, and none without work. */
  method EffectiveThreads(requested: nat, loops: nat) returns (n: nat)
    ensures 1 <= n && (loops > 0 ==> n <= loops)
    ensures n <= requested || n == 1
    ensures 1 <= requested <= loops ==> n == requested
    ensures requested > loops > 0 ==> n == loops
  {
    if loops == 0 {
      return 1;
    }
    var maxWorkers := if requested < loops then requested else loops;
    n := if maxWorkers > 1 then maxWorkers else 1;
  }

  /** Where the first `i` segments of a range end. */
  function EndOf(segments: seq<Segment>, start: nat, i: nat): nat
    requires i <= |segments|
  {
    if i == 0 then start else segments[i - 1].0 + segments[i - 1].1
  }

  /** Non-empty segments, each starting where the one before ends. */
  ghost predicate Covers(segments: seq<Segment>, start: nat, end: nat) {
    && (forall i :: 0 <= i < |segments| ==> segments[i].0 == EndOf(segments, start, i) && segments[i].1 > 0)
    && EndOf(segments, start, |segments|) == end
  }

  lemma SegmentFollows(segments: seq<Segment>, start: nat, end: nat, i: nat)
    requires Covers(segments, start, end) && i < |segments|
    ensures segments[i].0 == EndOf(segments, start, i) && segments[i].1 > 0
    ensures EndOf(segments, start, i + 1) == segments[i].0 + segments[i].1
  {
  }

  lemma CoversEnds(segments: seq<Segment>, start: nat, end: nat)
    requires Covers(segments, start, end)
    ensures EndOf(segments, start, 0) == start && EndOf(segments, start, |segments|) == end
  {
  }

  lemma CoversAppend(segments: seq<Segment>, start: nat, cursor: nat, len: nat)
    requires Covers(segments, start, cursor) && len > 0
    ensures Covers(segments + [(cursor, len)], start, cursor + len)
  {
  }

  /** How many salts the first `index` segments hold; the first `remainder` are one longer. */
  function Reached(base: nat, remainder: nat, index: nat): nat {
    base * index + if index < remainder then index else remainder
  }

  lemma ReachedNext(base: nat, remainder: nat, index: nat)
    ensures Reached(base, remainder, index + 1)
            == Reached(base, remainder, index) + base + if index < remainder then 1 else 0
  {
    assert base * (index + 1) == base * index + base;
  }

  /** The length of the shorter segments, and the number of those that get one element more. */
  function Shares(loops: nat, segments: nat): (r: (nat, nat))
    requires segments > 0
  {
    (loops / segments, loops % segments)
  }

  lemma ReachedAll(loops: nat, segments: nat)
    requires segments > 0
    ensures var (base, remainder) := Shares(loops, segments);
      && remainder < segments
      && Reached(base, remainder, segments) == loops && Reached(base, remainder, 0) == 0
  {
  }

  /** The first `remainder` segments have one element more than the `base` of the others. */
  predicate Even(segments: seq<Segment>, base: nat, remainder: nat) {
    forall i :: 0 <= i < |segments| ==> segments[i].1 == base + if i < remainder then 1 else 0
  }

  lemma NothingCovered(start: nat, base: nat, remainder: nat)
    ensures Covers([], start, start) && Even([], base, remainder)
  {
  }

  lemma EvenAppend(segments: seq<Segment>, base: nat, remainder: nat, segment: Segment)
    requires Even(segments, base, remainder) && segment.1 == base + if |segments| < remainder then 1 else 0
    ensures Even(segments + [segment], base, remainder)
  {
  }

  /** `split_range`: consecutive segments covering the range, their lengths at most one apart, the longer ones first;
      as many as asked for, unless there are fewer elements. */
  method SplitRange(startSalt: nat, loops: nat, segments: nat) returns (result: seq<Segment>)
    requires segments > 0
    ensures Covers(result, startSalt, startSalt + loops)
    ensures var (base, remainder) := Shares(loops, segments);
            Even(result, base, remainder) && |result| == if base > 0 then segments else remainder
  {
    hide *;
    result := [];
    var (base, remainder) := Shares(loops, segments);
    var cursor := startSalt;
    ReachedAll(loops, segments);
    NothingCovered(startSalt, base, remainder);
    for index := 0 to segments
      invariant cursor == startSalt + Reached(base, remainder, index)
      invariant Covers(result, startSalt, cursor) && Even(result, base, remainder)
      invariant |result| == if base > 0 || index < remainder then index else remainder
    {
      var len := base + if index < remainder then 1 else 0;
      ReachedNext(base, remainder, index);
      if len > 0 {
        CoversAppend(result, startSalt, cursor, len);
        EvenAppend(result, base, remainder, (cursor, len));
        result := result + [(cursor, len)];
        cursor := cursor + len;
      }
    }
  }

  /** Every element of a covered range lies in one of the segments. */
  lemma {:induction false} SegmentOf(segments: seq<Segment>, start: nat, end: nat, n: nat, c: nat) returns (i: nat)
    requires Covers(segments, start, end) && n <= |segments| && start <= c < EndOf(segments, start, n)
    ensures i < n && segments[i].0 <= c < segments[i].0 + segments[i].1
  {
    hide Covers, EndOf;
    CoversEnds(segments, start, end);
    if n == 0 {
      assert false;
    }
    i := n - 1;
    SegmentFollows(segments, start, end, i);
    if c < segments[i].0 {
      i := SegmentOf(segments, start, end, n - 1, c);
    }
  }

  /** Every segment lies in the covered range. */
  lemma SegmentInside(segments: seq<Segment>, start: nat, end: nat, i: nat)
    requires Covers(segments, start, end) && i < |segments|
    ensures start <= segments[i].0 && segments[i].0 + segments[i].1 <= end
  {
    hide Covers, EndOf;
    CoversEnds(segments, start, end);
    EndsAscend(segments, start, end, 0, i);
    EndsAscend(segments, start, end, i + 1, |segments|);
    SegmentFollows(segments, start, end, i);
  }

  lemma {:induction false} EndsAscend(segments: seq<Segment>, start: nat, end: nat, i: nat, j: nat)
    requires Covers(segments, start, end) && i <= j <= |segments|
    ensures EndOf(segments, start, i) <= EndOf(segments, start, j)
  {
    hide Covers, EndOf;
    if i < j {
      EndsAscend(segments, start, end, i, j - 1);
      SegmentFollows(segments, start, end, j - 1);
    }
  }
}
