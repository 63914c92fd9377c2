/** The off-chain pool address miner: threads, chunks and early exits around a scan of salts. */
module PoolMiner {
  import opened Results
  import opened HexZeros
  import opened Mining
  import opened RangeSplit
  import opened TypeBuckets

  datatype ChunkResult = ChunkResult(best: Candidate, earliestHit: Option<Candidate>, typeBuckets: Table)

  datatype SearchResult = SearchResult(result: Candidate, hitFound: bool, lowerRarityChoices: seq<Option<Candidate>>,
                                       typeBuckets: Table)

  method EvaluateCandidate(derive: Derive, salt: nat) returns (c: Candidate)
    ensures c == CandidateAt(derive, salt)
  {
    var address := derive(salt);
    var rarity := LeadingZeroHexChars(address);
    c := Candidate(salt, rarity, address);
  }

  // ---------- one segment ----------

  /** The answer of one worker: its first hit, having seen nothing beyond it, or else its best. */
  ghost predicate Answers(r: ChunkResult, seen: set<nat>, derive: Derive, segment: Segment, target: nat) {
    var (start, len) := segment;
    && Lists(r.typeBuckets, derive, seen)
    && match r.earliestHit
       case Some(hit) => Scanned(derive, start, start + len, target, hit, true) && seen == Salts(start, hit.salt + 1)
       case None => Scanned(derive, start, start + len, target, r.best, false) && seen == Salts(start, start + len)
  }

  /** `search_segment`: scans until the first hit. */
  method SearchSegment(derive: Derive, startSalt: nat, loops: nat, target: nat)
    returns (r: ChunkResult, ghost seen: set<nat>)
    requires loops > 0
    ensures Answers(r, seen, derive, (startSalt, loops), target)
  {
    hide LeadingZeros, Smallest;
    var best := EvaluateCandidate(derive, startSalt);
    var buckets := EmptyTypeBuckets(derive);
    RecordTypeCandidate(buckets, derive, {}, best);
    seen := Salts(startSalt, startSalt + 1);
    assert {} + {best.salt} == seen;
    if best.rarity >= target {
      return ChunkResult(best, Some(best), Snapshot(buckets)), seen;
    }
    var end, salt := startSalt + loops, startSalt + 1;
    while salt < end
      invariant startSalt < salt <= end
      invariant best == CandidateAt(derive, best.salt) && Best(derive, startSalt, salt, best.salt)
      invariant NoHit(derive, startSalt, salt, target)
      invariant fresh(buckets) && Records(buckets, derive, seen) && seen == Salts(startSalt, salt)
    {
      var candidate := EvaluateCandidate(derive, salt);
      RecordTypeCandidate(buckets, derive, seen, candidate);
      seen := seen + {salt};
      assert seen == Salts(startSalt, salt + 1);
      if IsBetter(candidate, best) {
        best := candidate;
      }
      if candidate.rarity >= target {
        return ChunkResult(best, Some(candidate), Snapshot(buckets)), seen;
      }
      salt := salt + 1;
    }
    r := ChunkResult(best, None, Snapshot(buckets));
  }

  // ---------- all segments ----------

  /** One worker for each segment; workers share nothing. */
  method RunWorkers(derive: Derive, segments: seq<Segment>, ghost start: nat, ghost end: nat, target: nat)
    returns (chunks: seq<ChunkResult>, ghost seen: seq<set<nat>>)
    requires Covers(segments, start, end)
    ensures |chunks| == |segments| == |seen|
    ensures forall i :: 0 <= i < |chunks| ==> Answers(chunks[i], seen[i], derive, segments[i], target)
  {
    hide Covers, EndOf, Answers;
    chunks, seen := [], [];
    for i := 0 to |segments|
      invariant |chunks| == i == |seen|
      invariant forall j :: 0 <= j < i ==> Answers(chunks[j], seen[j], derive, segments[j], target)
    {
      SegmentFollows(segments, start, end, i);
      var chunk, salts := SearchSegment(derive, segments[i].0, segments[i].1, target);
      chunks, seen := chunks + [chunk], seen + [salts];
    }
  }

  predicate ValidRange(startSalt: nat, loops: nat) {
    loops > 0 && startSalt + loops - 1 <= MAX_U96
  }

  function LowerRarityChoices(bestRarity: nat, t: Table): seq<Option<Candidate>>
    requires bestRarity <= 41
  {
    if bestRarity == 0 then seq(16, k => None) else t[bestRarity - 1]
  }

  /** The answer of a search of [start, end): exactly the plain scan's, and a table right up to the result of a
      hit, or for the whole range without one. */
  ghost predicate Found(r: SearchResult, derive: Derive, start: nat, end: nat, target: nat) {
    && Scanned(derive, start, end, target, r.result, r.hitFound)
    && r.lowerRarityChoices == LowerRarityChoices(r.result.rarity, r.typeBuckets)
    && TableIsRight(r.typeBuckets, derive, start, StopOf(r, end), end)
  }

  /** How far every worker is known to have looked. */
  function StopOf(r: SearchResult, end: nat): nat {
    if r.hitFound then r.result.salt + 1 else end
  }

  /** What joining the first workers has established about the range up to `end`. */
  ghost predicate Joined(derive: Derive, start: nat, end: nat, target: nat, best: Option<Candidate>,
                         hit: Option<Candidate>, seen: set<nat>) {
    match hit
    case Some(h) => Scanned(derive, start, end, target, h, true) && SeenUpTo(seen, start, h.salt + 1, end)
    case None =>
      && seen == Salts(start, end)
      && if best.None? then start == end else Scanned(derive, start, end, target, best.value, false)
  }

  lemma NothingJoined(derive: Derive, start: nat, segments: seq<Segment>, target: nat)
    ensures Joined(derive, start, EndOf(segments, start, 0), target, None, None, {})
            && EndOf(segments, start, 0) == start
  {
  }

  /** Joining one more worker. */
  lemma JoinNext(derive: Derive, start: nat, mid: nat, len: nat, target: nat, best: Option<Candidate>,
                 hit: Option<Candidate>, seen: set<nat>, chunk: ChunkResult, salts: set<nat>)
    requires Joined(derive, start, mid, target, best, hit, seen)
    requires start <= mid && len > 0 && Answers(chunk, salts, derive, (mid, len), target)
    ensures Joined(derive, start, mid + len, target, Some(Better(best, chunk.best)), Earlier(hit, chunk.earliestHit),
                   seen + salts)
  {
  }

  function Better(best: Option<Candidate>, candidate: Candidate): Candidate {
    if best.Some? && !IsBetter(candidate, best.value) then best.value else candidate
  }

  function Earlier(existing: Option<Candidate>, hit: Option<Candidate>): Option<Candidate> {
    if hit.None? || (existing.Some? && existing.value.salt <= hit.value.salt) then existing else hit
  }

  /** Joins the workers in order. */
  method JoinWorkers(ghost derive: Derive, ghost start: nat, ghost end: nat, ghost segments: seq<Segment>,
                     ghost target: nat, chunks: seq<ChunkResult>, ghost seens: seq<set<nat>>, buckets: Buckets)
    returns (best: Option<Candidate>, hit: Option<Candidate>, ghost seen: set<nat>)
    requires Covers(segments, start, end) && |chunks| == |segments| == |seens|
    requires forall i :: 0 <= i < |chunks| ==> Answers(chunks[i], seens[i], derive, segments[i], target)
    requires Records(buckets, derive, {})
    modifies buckets
    ensures Records(buckets, derive, seen)
    ensures Joined(derive, start, end, target, best, hit, seen)
  {
    hide Joined, Records, EndOf, Better, Earlier, Scanned, Lists;
    best, hit := None, None;
    seen := {};
    NothingJoined(derive, start, segments, target);
    for i := 0 to |chunks|
      invariant Joined(derive, start, EndOf(segments, start, i), target, best, hit, seen)
                && start <= EndOf(segments, start, i)
      invariant Records(buckets, derive, seen)
    {
      SegmentFollows(segments, start, end, i);
      JoinNext(derive, start, segments[i].0, segments[i].1, target, best, hit, seen, chunks[i], seens[i]);
      best := Some(Better(best, chunks[i].best));
      hit := Earlier(hit, chunks[i].earliestHit);
      MergeTypeBuckets(buckets, chunks[i].typeBuckets, derive, seen, seens[i]);
      seen := seen + seens[i];
    }
  }

  /** What joining all workers has established is the answer of the search. */
  lemma JoinedIsFound(derive: Derive, start: nat, end: nat, target: nat, best: Option<Candidate>,
                      hit: Option<Candidate>, seen: set<nat>, t: Table)
    requires start < end && Joined(derive, start, end, target, best, hit, seen) && Lists(t, derive, seen)
    ensures SeenUpTo(seen, start, if hit.Some? then hit.value.salt + 1 else end, end)
    ensures match hit
            case Some(h) => h.rarity <= 40
              && Found(SearchResult(h, true, LowerRarityChoices(h.rarity, t), t), derive, start, end, target)
            case None => best.Some? && best.value.rarity <= 40
                         && Found(SearchResult(best.value, false, LowerRarityChoices(best.value.rarity, t), t), derive,
                                  start, end, target)
  {
    SeenTableIsRight(t, derive, seen, start, if hit.Some? then hit.value.salt + 1 else end, end);
    hide TableIsRight, Lists, LeadingZeros;
  }

  /** `search_range`: whatever the number of threads, the plain scan's answer. */
  method SearchRange(derive: Derive, startSalt: nat, loops: nat, target: nat, threads: nat)
    returns (r: Result<SearchResult>, ghost seen: set<nat>)
    ensures r.Ok? <==> ValidRange(startSalt, loops)
    ensures r.Ok? ==> Found(r.value, derive, startSalt, startSalt + loops, target)
    ensures r.Ok? ==>
      Lists(r.value.typeBuckets, derive, seen)
      && SeenUpTo(seen, startSalt, StopOf(r.value, startSalt + loops), startSalt + loops)
  {
    hide Joined, Found, Covers, Answers;
    if !ValidRange(startSalt, loops) {
      return Revert(InvalidRange), {};
    }
    var workerCount := EffectiveThreads(threads, loops);
    var ranges := SplitRange(startSalt, loops, workerCount);
    var chunks, seens := RunWorkers(derive, ranges, startSalt, startSalt + loops, target);
    var buckets := EmptyTypeBuckets(derive);
    var best, hit, salts := JoinWorkers(derive, startSalt, startSalt + loops, ranges, target, chunks, seens, buckets);
    var table := Snapshot(buckets);
    JoinedIsFound(derive, startSalt, startSalt + loops, target, best, hit, salts, table);
    var (result, hitFound) := if hit.Some? then (hit.value, true) else (best.value, false);
    r, seen := Ok(SearchResult(result, hitFound, LowerRarityChoices(result.rarity, table), table)), salts;
  }

  // ---------- chunk after chunk ----------

  /** The chunks up to `next` held no hit; `start` itself was recorded beforehand. */
  ghost predicate Progress(derive: Derive, start: nat, next: nat, target: nat, best: Candidate, seen: set<nat>) {
    && start <= next
    && seen == Salts(start, next) + {start}
    && best == CandidateAt(derive, best.salt)
    && NoHit(derive, start, next, target)
    && if next == start then best.salt == start else Best(derive, start, next, best.salt)
  }

  lemma NothingSearched(derive: Derive, start: nat, target: nat)
    ensures Progress(derive, start, start, target, CandidateAt(derive, start), {start})
  {
  }

  lemma NextChunk(derive: Derive, start: nat, next: nat, len: nat, target: nat, best: Candidate, seen: set<nat>,
                  r: SearchResult, salts: set<nat>)
    requires Progress(derive, start, next, target, best, seen) && len > 0
    requires Found(r, derive, next, next + len, target) && !r.hitFound && SeenUpTo(salts, next, next + len, next + len)
    ensures Progress(derive, start, next + len, target, if IsBetter(r.result, best) then r.result else best,
                     seen + salts)
  {
    assert seen + salts == Salts(start, next + len) + {start};
    hide TableIsRight, LeadingZeros, LowerRarityChoices;
  }

  lemma LastChunk(derive: Derive, start: nat, next: nat, len: nat, target: nat, best: Candidate, seen: set<nat>,
                  r: SearchResult, salts: set<nat>, end: nat, t: Table)
    requires Progress(derive, start, next, target, best, seen) && next + len <= end && Lists(t, derive, seen + salts)
    requires Found(r, derive, next, next + len, target) && r.hitFound
             && SeenUpTo(salts, next, r.result.salt + 1, next + len)
    ensures r.result.rarity <= 40 && r.result.salt < next + len
    ensures Found(SearchResult(r.result, true, LowerRarityChoices(r.result.rarity, t), t), derive, start, end, target)
  {
    assert SeenUpTo(seen + salts, start, r.result.salt + 1, end);
    SeenTableIsRight(t, derive, seen + salts, start, r.result.salt + 1, end);
    hide TableIsRight, LeadingZeros, LowerRarityChoices, Lists;
  }

  lemma NoChunkLeft(derive: Derive, start: nat, end: nat, target: nat, best: Candidate, seen: set<nat>, t: Table)
    requires Progress(derive, start, end, target, best, seen) && start < end && Lists(t, derive, seen)
    ensures best.rarity <= 40
    ensures Found(SearchResult(best, false, LowerRarityChoices(best.rarity, t), t), derive, start, end, target)
  {
    SeenTableIsRight(t, derive, seen, start, end, end);
    hide TableIsRight, LeadingZeros, LowerRarityChoices, Lists;
  }

  /** `search_until_target`: never fails, and answers what one scan of all salts from the start on would. Also
      returns how many salts the chunks spanned. */
  method SearchUntilTarget(derive: Derive, startSalt: nat, target: nat, threads: nat, chunkLoops: nat)
    returns (r: Result<SearchResult>, totalLoops: nat)
    requires startSalt <= MAX_U96 && chunkLoops > 0
    ensures r.Ok? && Found(r.value, derive, startSalt, MAX_U96 + 1, target)
    ensures startSalt + totalLoops <= MAX_U96 + 1
    ensures if r.value.hitFound then r.value.result.salt < startSalt + totalLoops
            else startSalt + totalLoops == MAX_U96 + 1
  {
    hide Found, Records, Lists, Progress, LowerRarityChoices, IsBetter, Best, NoHit, Salts, SeenUpTo, LeadingZeros;
    var nextSalt := startSalt;
    totalLoops := 0;
    var best := EvaluateCandidate(derive, startSalt);
    var buckets := EmptyTypeBuckets(derive);
    RecordTypeCandidate(buckets, derive, {}, best);
    ghost var seen := {startSalt};
    assert {} + {startSalt} == seen;
    NothingSearched(derive, startSalt, target);
    while nextSalt <= MAX_U96
      invariant startSalt <= nextSalt <= MAX_U96 + 1 && totalLoops == nextSalt - startSalt
      invariant fresh(buckets) && Records(buckets, derive, seen)
                && Progress(derive, startSalt, nextSalt, target, best, seen)
    {
      var remaining := MAX_U96 - nextSalt + 1;
      var loops := if chunkLoops < remaining then chunkLoops else remaining;
      var result, salts := SearchRange(derive, nextSalt, loops, target, threads);
      totalLoops := totalLoops + loops;
      MergeTypeBuckets(buckets, result.value.typeBuckets, derive, seen, salts);
      if result.value.hitFound {
        var table := Snapshot(buckets);
        SnapshotLists(buckets, derive, seen + salts);
        LastChunk(derive, startSalt, nextSalt, loops, target, best, seen, result.value, salts, MAX_U96 + 1, table);
        r := Ok(SearchResult(result.value.result, true, LowerRarityChoices(result.value.result.rarity, table), table));
        return;
      }
      NextChunk(derive, startSalt, nextSalt, loops, target, best, seen, result.value, salts);
      if IsBetter(result.value.result, best) {
        best := result.value.result;
      }
      seen := seen + salts;
      nextSalt := nextSalt + loops;
    }
    var table := Snapshot(buckets);
    SnapshotLists(buckets, derive, seen);
    NoChunkLeft(derive, startSalt, MAX_U96 + 1, target, best, seen, table);
    r := Ok(SearchResult(best, false, LowerRarityChoices(best.rarity, table), table));
  }

  /** Two searches of a range, whatever their threads and chunks: the same result, without a hit the same in
      every respect, and with a hit the same smallest salt for every class that occurs up to it. */
  lemma ThreadsAndChunksDoNotMatter(derive: Derive, start: nat, end: nat, target: nat, a: SearchResult, b: SearchResult)
    requires Found(a, derive, start, end, target) && Found(b, derive, start, end, target)
    ensures a.result == b.result && a.hitFound == b.hitFound
    ensures !a.hitFound ==> a == b
    ensures forall r, k ::
              0 <= r < 41 && 0 <= k < 16 && (exists s :: start <= s <= a.result.salt && InClass(derive, s, r, k)) ==>
                a.typeBuckets[r][k] == b.typeBuckets[r][k]
  {
    ScanIsUnique(derive, start, end, target, a.result, a.hitFound, b.result, b.hitFound);
    hide Scanned, Smallest, LeadingZeros, InClass;
    forall r, k | 0 <= r < 41 && 0 <= k < 16 && (exists s :: start <= s < StopOf(a, end) && InClass(derive, s, r, k))
      ensures a.typeBuckets[r][k] == b.typeBuckets[r][k]
    {
      assert SlotIsRight(a.typeBuckets[r][k], derive, start, StopOf(a, end), end, r, k);
      assert SlotIsRight(b.typeBuckets[r][k], derive, start, StopOf(b, end), end, r, k);
      SmallestIsUnique(derive, Salts(start, end), r, k, a.typeBuckets[r][k], b.typeBuckets[r][k]);
    }
    if !a.hitFound {
      forall r, k | 0 <= r < 41 && 0 <= k < 16
        ensures a.typeBuckets[r][k] == b.typeBuckets[r][k]
      {
        assert SlotIsRight(a.typeBuckets[r][k], derive, start, end, end, r, k);
        assert SlotIsRight(b.typeBuckets[r][k], derive, start, end, end, r, k);
        SmallestIsUnique(derive, Salts(start, end), r, k, a.typeBuckets[r][k], b.typeBuckets[r][k]);
      }
      forall r | 0 <= r < 41
        ensures a.typeBuckets[r] == b.typeBuckets[r]
      {
      }
      assert a.typeBuckets == b.typeBuckets;
    }
  }

  /** The choices offered besides the result are those one rarity below it: for each last digit the smallest salt of
      the range that has it, wherever it was sure to be seen; below a rarity of zero there are none. */
  lemma ChoicesAreOneBelow(r: SearchResult, derive: Derive, start: nat, end: nat, target: nat, k: nat)
    requires Found(r, derive, start, end, target) && k < 16
    ensures |r.lowerRarityChoices| == 16 && r.result.rarity <= 40
    ensures if r.result.rarity == 0 then r.lowerRarityChoices[k].None?
            else SlotIsRight(r.lowerRarityChoices[k], derive, start, StopOf(r, end), end, r.result.rarity - 1, k)
  {
    hide Scanned, SlotIsRight, LeadingZeros;
    FoundRarity(r, derive, start, end, target);
  }

  lemma FoundRarity(r: SearchResult, derive: Derive, start: nat, end: nat, target: nat)
    requires Scanned(derive, start, end, target, r.result, r.hitFound)
    ensures r.result.rarity <= 40
  {
  }
}
