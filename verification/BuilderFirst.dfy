/** Which hit the first-hit mode of the builder code miner reports, and when it is the smallest of the range. */
module BuilderFirst {
  import opened RangeSplit
  import opened BuilderMiner

  /** No code from `a` up to `b` is a hit. */
  ghost predicate NoHits(search: Search, a: nat, b: nat) {
    forall d :: a <= d < b ==> !search.IsHit(d)
  }

  ghost predicate HasHit(search: Search, segment: Segment) {
    exists c :: segment.0 <= c < segment.0 + segment.1 && search.IsHit(c)
  }

  /** A hit that is the first of its segment. */
  ghost predicate FirstOf(search: Search, segment: Segment, c: nat) {
    segment.0 <= c < segment.0 + segment.1 && search.IsHit(c) && NoHits(search, segment.0, c)
  }

  lemma HitOfWorker(search: Search, segment: Segment, me: Worker, c: nat)
    requires !search.collectAll && Sound(search, segment, me) && c in Hits(search, me.tried)
    ensures FirstOf(search, segment, c)
  {
    OneHitPerWorker(search, segment, me);
    hide Codes, Hits, Search.IsHit;
    forall d | me.start <= d < me.code
      ensures !search.IsHit(d)
    {
      HitsAre(search, Codes(me.start, me.code), d);
      CodesAre(me.start, me.code, d);
    }
  }

  /** At any moment of any interleaving, every hit sent is the first hit of the segment it lies in. */
  lemma SentHitsAreFirstOfTheirSegment(search: Search, segments: seq<Segment>, schedule: seq<(nat, bool)>, c: nat)
    returns (i: nat)
    requires !search.collectAll && c in Run(search, Spawn(segments), schedule).channel
    ensures i < |segments| && FirstOf(search, segments[i], c)
  {
    var s := Run(search, Spawn(segments), schedule);
    RunKeepsInv(search, segments, schedule);
    hide Run, Spawn, Hits, Codes, Search.IsHit, AllHits, Counted, FirstOf;
    assert c in multiset(s.channel) && s.workers[..|segments|] == s.workers;
    i := HitsAreGenuine(search, segments, s.stop, s.workers, |segments|, c);
    HitOfWorker(search, segments[i], s.workers[i], c);
  }

  /** All hits of the range lie in one segment, as they do for a single worker. */
  ghost predicate HitsInOneSegment(search: Search, segments: seq<Segment>) {
    forall i, j :: 0 <= i < |segments| && 0 <= j < |segments| ==>
      HasHit(search, segments[i]) && HasHit(search, segments[j]) ==> i == j
  }

  /** The hit received first is the smallest of the range. */
  ghost predicate FirstIsSmallest(search: Search, segments: seq<Segment>, a: nat, schedule: seq<(nat, bool)>) {
    var s := Run(search, Spawn(segments), schedule);
    s.channel != [] ==> NoHits(search, a, s.channel[0])
  }

  lemma OneSegmentIsEnough(search: Search, segments: seq<Segment>, a: nat, b: nat, schedule: seq<(nat, bool)>)
    requires !search.collectAll && Covers(segments, a, b) && HitsInOneSegment(search, segments)
    ensures FirstIsSmallest(search, segments, a, schedule)
  {
    var channel := Run(search, Spawn(segments), schedule).channel;
    hide Run, Spawn, Search.IsHit, Covers, EndOf;
    if channel != [] {
      var c := channel[0];
      var i := SentHitsAreFirstOfTheirSegment(search, segments, schedule, c);
      SegmentInside(segments, a, b, i);
      CoversEnds(segments, a, b);
      forall d | a <= d < c
        ensures !search.IsHit(d)
      {
        var k := SegmentOf(segments, a, b, |segments|, d);
        assert HasHit(search, segments[i]);
        assert search.IsHit(d) ==> HasHit(search, segments[k]);
      }
    }
  }

  // ---------- the other way ----------

  /** Letting one worker run to its end leaves the others where they are and what was sent in place. */
  lemma FinishWorker(search: Search, segments: seq<Segment>, schedule: seq<(nat, bool)>, w: nat)
    returns (longer: seq<(nat, bool)>)
    requires w < |segments|
    requires Inv(search, segments, Run(search, Spawn(segments), schedule))
    ensures Inv(search, segments, Run(search, Spawn(segments), longer))
    ensures var s, t := Run(search, Spawn(segments), schedule), Run(search, Spawn(segments), longer);
            && t.workers[w].phase == Done && s.channel <= t.channel
            && forall k :: 0 <= k < |segments| && k != w ==> t.workers[k] == s.workers[k]
    decreases WorkLeft(Run(search, Spawn(segments), schedule).workers[w])
  {
    var s := Run(search, Spawn(segments), schedule);
    hide Run, Spawn, Hits, Codes, Search.IsHit, AllHits, Counted;
    assert Sound(search, segments[w], s.workers[w]);
    if s.workers[w].phase == Done {
      longer := schedule;
    } else {
      RunNext(search, Spawn(segments), schedule, w, true);
      StepKeepsInv(search, segments, s, w, true);
      ActWorks(search, segments[w], s.workers[w], s.stop, true);
      hide Act, Inv, Sound, WorkLeft;
      longer := FinishWorker(search, segments, schedule + [(w, true)], w);
    }
  }

  /** Every interleaving can be continued until all workers have finished. */
  lemma FinishAll(search: Search, segments: seq<Segment>, schedule: seq<(nat, bool)>, n: nat)
    returns (longer: seq<(nat, bool)>)
    requires n <= |segments| && Inv(search, segments, Run(search, Spawn(segments), schedule))
    ensures Inv(search, segments, Run(search, Spawn(segments), longer))
    ensures var s, t := Run(search, Spawn(segments), schedule), Run(search, Spawn(segments), longer);
            s.channel <= t.channel && forall k :: 0 <= k < n ==> t.workers[k].phase == Done
  {
    hide Run, Spawn, AllSound, AllHits, Counted;
    longer := schedule;
    if n > 0 {
      longer := FinishAll(search, segments, schedule, n - 1);
      longer := FinishWorker(search, segments, longer, n - 1);
    }
  }

  /** Only one worker has moved, and it has finished a segment with a hit. */
  lemma OnlyWorkerSent(search: Search, segments: seq<Segment>, s: State, w: nat)
    requires !search.collectAll && Inv(search, segments, s) && w < |segments| && HasHit(search, segments[w])
    requires s.workers[w].phase == Done && forall k :: 0 <= k < |segments| && k != w ==> s.workers[k].tried == []
    ensures s.channel != [] && FirstOf(search, segments[w], s.channel[0])
  {
    hide Hits, Codes, Search.IsHit, AllHits, Counted, FirstOf;
    var c :| segments[w].0 <= c < segments[w].0 + segments[w].1 && search.IsHit(c);
    NothingMissed(search, segments, s, w, c);
    var first := s.channel[0];
    assert first in multiset(s.channel) && s.workers[..|segments|] == s.workers;
    var i := HitsAreGenuine(search, segments, s.stop, s.workers, |segments|, first);
    NothingTried(search, first);
    HitOfWorker(search, segments[w], s.workers[w], first);
  }

  /** A worker that runs alone from the start sends the first hit of its segment. */
  lemma AloneSendsItsHit(search: Search, segments: seq<Segment>, w: nat) returns (schedule: seq<(nat, bool)>)
    requires !search.collectAll && w < |segments| && HasHit(search, segments[w])
    ensures Inv(search, segments, Run(search, Spawn(segments), schedule))
    ensures var s := Run(search, Spawn(segments), schedule);
            s.channel != [] && FirstOf(search, segments[w], s.channel[0])
  {
    hide Inv, HasHit, FirstOf;
    RunKeepsInv(search, segments, []);
    assert Run(search, Spawn(segments), []) == Spawn(segments);
    schedule := FinishWorker(search, segments, [], w);
    hide Run;
    SameLength(search, segments, Run(search, Spawn(segments), schedule));
    OnlyWorkerSent(search, segments, Run(search, Spawn(segments), schedule), w);
  }

  lemma SameLength(search: Search, segments: seq<Segment>, s: State)
    requires Inv(search, segments, s)
    ensures |s.workers| == |segments|
  {
  }

  lemma NothingTried(search: Search, c: nat)
    ensures c !in Hits(search, [])
  {
  }

  lemma EarlierHit(search: Search, segments: seq<Segment>, a: nat, b: nat, i: nat, j: nat, first: nat)
    requires Covers(segments, a, b) && i < j < |segments|
    requires HasHit(search, segments[i]) && FirstOf(search, segments[j], first)
    ensures !NoHits(search, a, first)
  {
    hide Search.IsHit, Covers, EndOf;
    SegmentInside(segments, a, b, i);
    SegmentFollows(segments, a, b, i);
    SegmentFollows(segments, a, b, j);
    EndsAscend(segments, a, b, i + 1, j);
  }

  /** With hits in two segments, some interleaving that finishes reports a hit that is not the smallest: the later
      worker is faster. */
  lemma LaterWorkerFirst(search: Search, segments: seq<Segment>, a: nat, b: nat, i: nat, j: nat)
    returns (schedule: seq<(nat, bool)>)
    requires !search.collectAll && Covers(segments, a, b) && i < j < |segments|
    requires HasHit(search, segments[i]) && HasHit(search, segments[j])
    ensures Finished(Run(search, Spawn(segments), schedule)) && !FirstIsSmallest(search, segments, a, schedule)
  {
    hide Run, Spawn, Inv, HasHit, FirstOf, NoHits, Covers;
    var alone := AloneSendsItsHit(search, segments, j);
    schedule := FinishAll(search, segments, alone, |segments|);
    SameLength(search, segments, Run(search, Spawn(segments), schedule));
    EarlierHit(search, segments, a, b, i, j, Run(search, Spawn(segments), alone).channel[0]);
  }

  /** Whatever the workers do, the first hit received is the smallest of the range, if and only if all hits lie in one
      segment; with hits in two segments there is a finished interleaving that reports another one. */
  lemma FirstIsSmallestExactly(search: Search, segments: seq<Segment>, a: nat, b: nat)
    requires !search.collectAll && Covers(segments, a, b)
    ensures (forall schedule :: Finished(Run(search, Spawn(segments), schedule)) ==>
             FirstIsSmallest(search, segments, a, schedule))
            <==> HitsInOneSegment(search, segments)
  {
    hide Run, Spawn, Search.IsHit, Covers, FirstIsSmallest, HasHit, Finished;
    if HitsInOneSegment(search, segments) {
      forall schedule | Finished(Run(search, Spawn(segments), schedule))
        ensures FirstIsSmallest(search, segments, a, schedule)
      {
        OneSegmentIsEnough(search, segments, a, b, schedule);
      }
    } else {
      var i, j :| 0 <= i < |segments| && 0 <= j < |segments| && HasHit(search, segments[i])
        && HasHit(search, segments[j]) && i != j;
      var schedule := LaterWorkerFirst(search, segments, a, b, if i < j then i else j, if i < j then j else i);
    }
  }

  /** For instance, when every code is a hit and each of two workers has one code. */
  lemma FirstIsNotSmallest(search: Search) returns (schedule: seq<(nat, bool)>)
    requires search.minZeros == 0 && !search.collectAll
    ensures Finished(Run(search, Spawn([(1, 1), (2, 1)]), schedule))
    ensures Run(search, Spawn([(1, 1), (2, 1)]), schedule).channel != []
    ensures Run(search, Spawn([(1, 1), (2, 1)]), schedule).channel[0] == 2 && search.IsHit(1)
  {
    var segments: seq<Segment> := [(1, 1), (2, 1)];
    assert search.IsHit(1) && search.IsHit(2) && Covers(segments, 1, 3);
    hide Run, Spawn, Search.IsHit, Covers, Finished;
    assert HasHit(search, segments[0]) && HasHit(search, segments[1]);
    schedule := LaterWorkerFirst(search, segments, 1, 3, 0, 1);
    var i := SentHitsAreFirstOfTheirSegment(search, segments, schedule,
                                            Run(search, Spawn(segments), schedule).channel[0]);
  }
}
