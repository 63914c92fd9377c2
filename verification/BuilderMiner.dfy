/** The multithreaded builder code miner: workers that share a stop flag, a channel and a counter, under
    every interleaving of their steps. */
module BuilderMiner {
  import opened HexZeros
  import opened Mining
  import opened RangeSplit

  /** What is searched for, and whether to go on after a hit. */
  datatype Search = Search(derive: Derive, minZeros: nat, collectAll: bool) {
    predicate IsHit(code: nat) {
      LeadingZeros(derive(code)) >= minZeros
    }
  }

  /** Where a worker is: at the head of its loop, about to hash, about to raise the stop flag, about to add to the
      counter, or finished. */
  datatype Phase = Checking | Hashing | Raising | Counting | Done

  /** One thread. `tried` is the history of the codes it hashed. */
  datatype Worker = Worker(start: nat, end: nat, code: nat, phase: Phase, tried: seq<nat>)

  datatype State = State(workers: seq<Worker>, stop: bool, channel: seq<nat>, counter: int)

  /** What an action does: to the worker, to the flag, to the channel and to the counter. */
  datatype Effect = Effect(worker: Worker, stop: bool, sent: seq<nat>, counted: int)

  /** One atomic action of a worker. Its relaxed load of the flag may miss a store by another thread:
      `isFresh` says whether it sees the flag's latest value. */
  function Act(search: Search, me: Worker, stop: bool, isFresh: bool): Effect {
    match me.phase
    case Checking =>
      var stopped := !search.collectAll && stop && isFresh;
      Effect(me.(phase := if me.code < me.end && !stopped then Hashing else Counting), stop, [], 0)
    case Hashing =>
      var hit := search.IsHit(me.code);
      var next := if hit && !search.collectAll then me.(phase := Raising)
        else me.(code := me.code + 1, phase := Checking);
      Effect(next.(tried := me.tried + [me.code]), stop, if hit then [me.code] else [], 0)
    case Raising => Effect(me.(phase := Counting), true, [], 0)
    case Counting => Effect(me.(phase := Done), stop, [], me.code - me.start)
    case Done => Effect(me, stop, [], 0)
  }

  function Step(search: Search, s: State, w: nat, isFresh: bool): State
    requires w < |s.workers|
  {
    var e := Act(search, s.workers[w], s.stop, isFresh);
    State(s.workers[w := e.worker], e.stop, s.channel + e.sent, s.counter + e.counted)
  }

  /** Any interleaving: which worker moves, and what it sees. */
  function Run(search: Search, s: State, schedule: seq<(nat, bool)>): State {
    if schedule == [] then s
    else
      var before := Run(search, s, schedule[..|schedule| - 1]);
      var (w, isFresh) := schedule[|schedule| - 1];
      if w < |before.workers| then Step(search, before, w, isFresh) else before
  }

  function Spawn(segments: seq<Segment>): (s: State)
    ensures |s.workers| == |segments|
  {
    State(seq(|segments|, i requires 0 <= i < |segments| =>
            Worker(segments[i].0, segments[i].0 + segments[i].1, segments[i].0, Checking, [])),
          false, [], 0)
  }

  predicate Finished(s: State) {
    forall i :: 0 <= i < |s.workers| ==> s.workers[i].phase == Done
  }

  // ---------- what the workers did ----------

  /** The codes from `a` up to `b`, in order. */
  function Codes(a: nat, b: nat): (codes: seq<nat>)
    ensures |codes| == if a <= b then b - a else 0
  {
    if b <= a then [] else Codes(a, b - 1) + [b - 1]
  }

  function Hits(search: Search, codes: seq<nat>): seq<nat> {
    if codes == [] then []
    else Hits(search, codes[..|codes| - 1]) + if search.IsHit(codes[|codes| - 1]) then [codes[|codes| - 1]] else []
  }

  /** What a worker has already added to the counter. */
  function CountedBy(w: Worker): int {
    if w.phase == Done then w.code - w.start else 0
  }

  function Counted(workers: seq<Worker>): int {
    if workers == [] then 0 else Counted(workers[..|workers| - 1]) + CountedBy(workers[|workers| - 1])
  }

  lemma {:induction false} HitsConcat(search: Search, a: seq<nat>, b: seq<nat>)
    ensures Hits(search, a + b) == Hits(search, a) + Hits(search, b)
  {
    if b == [] {
      assert a + b == a;
    } else {
      HitsConcat(search, a, b[..|b| - 1]);
      assert (a + b)[..|a + b| - 1] == a + b[..|b| - 1];
    }
  }

  /** The hits in the histories of all workers, whatever order they were sent in. */
  ghost function AllHits(search: Search, workers: seq<Worker>): multiset<nat> {
    if workers == [] then multiset{}
    else AllHits(search, workers[..|workers| - 1]) + multiset(Hits(search, workers[|workers| - 1].tried))
  }

  function HowManyTried(workers: seq<Worker>): nat {
    if workers == [] then 0 else HowManyTried(workers[..|workers| - 1]) + |workers[|workers| - 1].tried|
  }

  /** A worker's history is replaced. */
  lemma {:induction false} HistoryUpdate(search: Search, workers: seq<Worker>, w: nat, me: Worker)
    requires w < |workers| && workers[w].tried <= me.tried
    ensures AllHits(search, workers[w := me])
            == AllHits(search, workers) + multiset(Hits(search, me.tried[|workers[w].tried|..]))
    ensures HowManyTried(workers[w := me]) == HowManyTried(workers) + |me.tried| - |workers[w].tried|
  {
    hide Hits;
    var n := |workers| - 1;
    if w < n {
      HistoryUpdate(search, workers[..n], w, me);
      assert workers[w := me][..n] == workers[..n][w := me];
    } else {
      assert workers[w := me][..n] == workers[..n];
      var done, more := workers[w].tried, me.tried[|workers[w].tried|..];
      assert me.tried == done + more;
      HitsConcat(search, done, more);
    }
  }

  lemma {:induction false} CountedUpdate(workers: seq<Worker>, w: nat, me: Worker)
    requires w < |workers|
    ensures Counted(workers[w := me]) == Counted(workers) - CountedBy(workers[w]) + CountedBy(me)
  {
    var n := |workers| - 1;
    if w < n {
      CountedUpdate(workers[..n], w, me);
      assert workers[w := me][..n] == workers[..n][w := me];
    } else {
      assert workers[w := me][..n] == workers[..n];
    }
  }

  // ---------- the invariant ----------

  /** A worker has hashed its codes in order; in the first-hit mode the last of them may be a hit it stopped at. */
  ghost predicate Sound(search: Search, segment: Segment, w: Worker) {
    && (w.start, w.end) == (segment.0, segment.0 + segment.1)
    && w.start <= w.code <= w.end
    && w.tried == Codes(w.start, if AtHit(search, w) then w.code + 1 else w.code)
    && (w.phase == Hashing ==> w.code < w.end)
    && (w.phase == Raising ==> AtHit(search, w))
    && (AtHit(search, w) ==> w.code < w.end && search.IsHit(w.code) && !w.phase.Checking? && !w.phase.Hashing?)
    && (!search.collectAll ==> Hits(search, Codes(w.start, w.code)) == [])
  }

  /** The worker stopped at a hit. */
  predicate AtHit(search: Search, w: Worker) {
    !search.collectAll && |w.tried| == w.code - w.start + 1
  }

  ghost predicate AllSound(search: Search, segments: seq<Segment>, stop: bool, workers: seq<Worker>)
    requires |workers| == |segments|
  {
    forall i :: 0 <= i < |segments| ==> Sound(search, segments[i], workers[i]) && Exhausted(search, stop, workers[i])
  }

  ghost predicate Inv(search: Search, segments: seq<Segment>, s: State) {
    && |s.workers| == |segments|
    && AllSound(search, segments, s.stop, s.workers)
    && multiset(s.channel) == AllHits(search, s.workers)
    && s.counter == Counted(s.workers)
    && (s.stop ==> s.channel != [])
  }

  /** A worker leaves its loop at the end of its segment, at a hit, or because the flag was raised. */
  predicate Exhausted(search: Search, stop: bool, w: Worker) {
    w.phase.Counting? || w.phase.Done? ==> w.code == w.end || (!search.collectAll && (AtHit(search, w) || stop))
  }

  lemma OneHit(search: Search, code: nat)
    ensures Hits(search, [code]) == if search.IsHit(code) then [code] else []
  {
    assert [code][..0] == [];
  }

  lemma CodesNext(a: nat, b: nat)
    requires a <= b
    ensures Codes(a, b + 1) == Codes(a, b) + [b]
  {
  }

  lemma HashSound(search: Search, segment: Segment, me: Worker, stop: bool, isFresh: bool)
    requires Sound(search, segment, me) && me.phase == Hashing
    ensures var e := Act(search, me, stop, isFresh);
            && Sound(search, segment, e.worker)
            && me.tried <= e.worker.tried && e.sent == Hits(search, e.worker.tried[|me.tried|..])
  {
    hide Hits, Codes, LeadingZeros, Search.IsHit;
    CodesNext(me.start, me.code);
    HitsConcat(search, Codes(me.start, me.code), [me.code]);
    OneHit(search, me.code);
    assert (me.tried + [me.code])[|me.tried|..] == [me.code];
  }

  /** One action keeps the worker sound, and it sends what it adds to its history and is a hit. */
  lemma ActSound(search: Search, segment: Segment, me: Worker, stop: bool, isFresh: bool)
    requires Sound(search, segment, me)
    ensures var e := Act(search, me, stop, isFresh);
            && Sound(search, segment, e.worker)
            && me.tried <= e.worker.tried && e.sent == Hits(search, e.worker.tried[|me.tried|..])
  {
    if me.phase == Hashing {
      HashSound(search, segment, me, stop, isFresh);
    } else {
      assert me.tried[|me.tried|..] == [];
    }
  }

  /** What an action adds to the counter is counted once, when the worker is done; and a worker that leaves its
      loop has a reason. */
  lemma ActCounts(search: Search, segment: Segment, me: Worker, stop: bool, isFresh: bool)
    requires Sound(search, segment, me) && Exhausted(search, stop, me)
    ensures var e := Act(search, me, stop, isFresh);
            && Exhausted(search, e.stop, e.worker) && (e.stop <==> stop || me.phase == Raising)
            && e.counted == CountedBy(e.worker) - CountedBy(me)
  {
    hide Hits, Codes, Search.IsHit;
  }

  lemma HitWasSent(search: Search, workers: seq<Worker>, w: nat, code: nat)
    requires w < |workers| && |workers[w].tried| > 0 && workers[w].tried[|workers[w].tried| - 1] == code
             && search.IsHit(code)
    ensures |AllHits(search, workers)| > 0
  {
    var me := workers[w];
    var rest := me.tried[..|me.tried| - 1];
    assert me.tried[|rest|..] == [code] && workers[w := me.(tried := rest)][w := me] == workers;
    OneHit(search, code);
    hide Hits, AllHits, Search.IsHit;
    HistoryUpdate(search, workers[w := me.(tried := rest)], w, me);
  }

  lemma OthersStaySound(search: Search, segments: seq<Segment>, stop: bool, workers: seq<Worker>, w: nat, me: Worker,
                        nowStop: bool)
    requires |workers| == |segments| && w < |workers| && AllSound(search, segments, stop, workers) && (stop ==> nowStop)
    requires Sound(search, segments[w], me) && Exhausted(search, nowStop, me)
    ensures AllSound(search, segments, nowStop, workers[w := me])
  {
    hide Sound;
  }

  lemma StepKeepsInv(search: Search, segments: seq<Segment>, s: State, w: nat, isFresh: bool)
    requires Inv(search, segments, s) && w < |s.workers|
    ensures Inv(search, segments, Step(search, s, w, isFresh))
  {
    hide Act, Hits, AllHits, Counted, Sound, CountedBy, Exhausted;
    var me := s.workers[w];
    var e := Act(search, me, s.stop, isFresh);
    ActSound(search, segments[w], me, s.stop, isFresh);
    ActCounts(search, segments[w], me, s.stop, isFresh);
    OthersStaySound(search, segments, s.stop, s.workers, w, e.worker, e.stop);
    HistoryUpdate(search, s.workers, w, e.worker);
    CountedUpdate(s.workers, w, e.worker);
    if me.phase == Raising {
      RaisedAfterHit(search, segments[w], s.workers, w);
    }
  }

  lemma RaisedAfterHit(search: Search, segment: Segment, workers: seq<Worker>, w: nat)
    requires w < |workers| && Sound(search, segment, workers[w]) && workers[w].phase == Raising
    ensures |AllHits(search, workers)| > 0
  {
    CodesNext(workers[w].start, workers[w].code);
    HitWasSent(search, workers, w, workers[w].code);
  }

  lemma {:induction false} NothingDoneYet(search: Search, workers: seq<Worker>)
    requires forall i :: 0 <= i < |workers| ==> workers[i].tried == [] && workers[i].phase == Checking
    ensures AllHits(search, workers) == multiset{} && Counted(workers) == 0
  {
    if workers != [] {
      NothingDoneYet(search, workers[..|workers| - 1]);
    }
  }

  /** Every interleaving keeps the invariant. */
  lemma {:induction false} RunKeepsInv(search: Search, segments: seq<Segment>, schedule: seq<(nat, bool)>)
    ensures Inv(search, segments, Run(search, Spawn(segments), schedule))
  {
    if schedule == [] {
      NothingDoneYet(search, Spawn(segments).workers);
    } else {
      RunKeepsInv(search, segments, schedule[..|schedule| - 1]);
      var before := Run(search, Spawn(segments), schedule[..|schedule| - 1]);
      var (w, isFresh) := schedule[|schedule| - 1];
      hide Inv, Spawn;
      if w < |before.workers| {
        StepKeepsInv(search, segments, before, w, isFresh);
      }
    }
  }

  // ---------- results ----------

  lemma {:induction false} CodesJoin(a: nat, m: nat, b: nat)
    requires a <= m <= b
    ensures Codes(a, b) == Codes(a, m) + Codes(m, b)
  {
    if m < b {
      CodesJoin(a, m, b - 1);
    }
  }

  /** The histories of the first `n` workers, one after the other. */
  function AllTried(workers: seq<Worker>, n: nat): seq<nat>
    requires n <= |workers|
  {
    if n == 0 then [] else AllTried(workers, n - 1) + workers[n - 1].tried
  }

  /** A finished worker of a collecting search has tried its whole segment. */
  lemma CollectedSegment(search: Search, segments: seq<Segment>, s: State, i: nat)
    requires search.collectAll && Inv(search, segments, s) && Finished(s) && i < |segments|
    ensures var me := s.workers[i];
            me.tried == Codes(segments[i].0, segments[i].0 + segments[i].1) && CountedBy(me) == segments[i].1
  {
    hide AllHits, Counted, Codes;
    assert Sound(search, segments[i], s.workers[i]) && Exhausted(search, s.stop, s.workers[i])
           && s.workers[i].phase == Done;
  }

  lemma OneMoreTried(workers: seq<Worker>, n: nat, a: nat, m: nat, end: nat)
    requires n < |workers| && a <= m <= end && AllTried(workers, n) == Codes(a, m) && workers[n].tried == Codes(m, end)
    ensures AllTried(workers, n + 1) == Codes(a, end)
  {
    CodesJoin(a, m, end);
  }

  lemma OneMoreHits(search: Search, workers: seq<Worker>, n: nat, a: nat, m: nat, end: nat)
    requires n < |workers| && a <= m <= end
    requires AllHits(search, workers[..n]) == multiset(Hits(search, Codes(a, m))) && workers[n].tried == Codes(m, end)
    ensures AllHits(search, workers[..n + 1]) == multiset(Hits(search, Codes(a, end)))
  {
    hide Codes, Hits;
    assert workers[..n + 1][..n] == workers[..n];
    CodesJoin(a, m, end);
    HitsConcat(search, Codes(a, m), Codes(m, end));
  }

  lemma OneMoreCounted(workers: seq<Worker>, n: nat)
    requires n < |workers|
    ensures Counted(workers[..n + 1]) == Counted(workers[..n]) + CountedBy(workers[n])
  {
    assert workers[..n + 1][..n] == workers[..n];
  }

  lemma {:induction false} CollectedSoFar(search: Search, segments: seq<Segment>, a: nat, b: nat, s: State, n: nat)
    requires search.collectAll && Covers(segments, a, b) && Inv(search, segments, s) && Finished(s)
    requires |s.workers| == |segments| && n <= |segments|
    ensures a <= EndOf(segments, a, n) && AllTried(s.workers, n) == Codes(a, EndOf(segments, a, n))
    ensures AllHits(search, s.workers[..n]) == multiset(Hits(search, Codes(a, EndOf(segments, a, n))))
    ensures Counted(s.workers[..n]) == EndOf(segments, a, n) - a
  {
    if n > 0 {
      hide *;
      CollectedSoFar(search, segments, a, b, s, n - 1);
      SegmentFollows(segments, a, b, n - 1);
      CollectedSegment(search, segments, s, n - 1);
      OneMoreTried(s.workers, n - 1, a, EndOf(segments, a, n - 1), EndOf(segments, a, n));
      OneMoreHits(search, s.workers, n - 1, a, EndOf(segments, a, n - 1), EndOf(segments, a, n));
      OneMoreCounted(s.workers, n - 1);
    } else {
      hide Inv, Covers, Finished, Codes, Hits;
      NoCodes(search, a);
    }
  }

  lemma NoCodes(search: Search, a: nat)
    ensures Codes(a, a) == [] && Hits(search, Codes(a, a)) == []
  {
  }

  /** Collect-all mode, every interleaving: when all workers have finished, every code of the range was hashed
      exactly once, the hits sent are exactly those of a sequential filter, and the counter is the length
      of the range. */
  lemma CollectAllIsSequential(search: Search, segments: seq<Segment>, a: nat, b: nat, schedule: seq<(nat, bool)>)
    requires search.collectAll && Covers(segments, a, b)
    requires Finished(Run(search, Spawn(segments), schedule))
    ensures var s := Run(search, Spawn(segments), schedule);
            && |s.workers| == |segments| && AllTried(s.workers, |segments|) == Codes(a, b)
            && multiset(s.channel) == multiset(Hits(search, Codes(a, b)))
            && s.counter == b - a
  {
    var s := Run(search, Spawn(segments), schedule);
    RunKeepsInv(search, segments, schedule);
    hide Run, Hits, Codes, Counted, AllHits, AllTried, AllSound, Finished;
    CollectedSoFar(search, segments, a, b, s, |segments|);
    assert s.workers[..|segments|] == s.workers;
  }

  // ---------- stopping at the first hit ----------

  lemma {:induction false} HitsAre(search: Search, codes: seq<nat>, c: nat)
    ensures c in Hits(search, codes) <==> c in codes && search.IsHit(c)
  {
    if codes != [] {
      HitsAre(search, codes[..|codes| - 1], c);
      assert codes == codes[..|codes| - 1] + [codes[|codes| - 1]];
    }
  }

  lemma {:induction false} CodesAre(a: nat, b: nat, c: nat)
    ensures c in Codes(a, b) <==> a <= c < b
  {
    if a < b {
      CodesAre(a, b - 1, c);
    }
  }

  /** A worker that stops at its first hit sends at most that one. */
  lemma OneHitPerWorker(search: Search, segment: Segment, me: Worker)
    requires !search.collectAll && Sound(search, segment, me)
    ensures Hits(search, me.tried) == if AtHit(search, me) then [me.code] else []
    ensures me.phase == Done ==> CountedBy(me) + |Hits(search, me.tried)| == |me.tried|
  {
    CodesNext(me.start, me.code);
    HitsConcat(search, Codes(me.start, me.code), [me.code]);
    OneHit(search, me.code);
    hide Hits, Codes, Search.IsHit;
  }

  lemma OneAtMost(search: Search, segments: seq<Segment>, s: State, i: nat)
    requires !search.collectAll && Inv(search, segments, s) && Finished(s) && i < |segments|
    ensures i < |s.workers| && |Hits(search, s.workers[i].tried)| <= 1
    ensures CountedBy(s.workers[i]) + |Hits(search, s.workers[i].tried)| == |s.workers[i].tried|
  {
    var me := s.workers[i];
    assert Sound(search, segments[i], me) && me.phase == Done;
    hide Codes, Hits, Search.IsHit, CountedBy, Sound;
    OneHitPerWorker(search, segments[i], me);
  }

  /** All hits together: at most one for each worker, and with them the counter accounts for every code hashed. */
  lemma {:induction false} FirstHitsSoFar(search: Search, segments: seq<Segment>, s: State, n: nat)
    requires !search.collectAll && Inv(search, segments, s) && Finished(s)
    requires |s.workers| == |segments| && n <= |segments|
    ensures |AllHits(search, s.workers[..n])| <= n
    ensures Counted(s.workers[..n]) + |AllHits(search, s.workers[..n])| == HowManyTried(s.workers[..n])
  {
    hide Inv, Finished, Hits, CountedBy;
    if n > 0 {
      var upTo := s.workers[..n];
      FirstHitsSoFar(search, segments, s, n - 1);
      OneAtMost(search, segments, s, n - 1);
      hide AllHits, Counted, HowManyTried;
      assert upTo[..n - 1] == s.workers[..n - 1];
      MoreHits(search, upTo, s.workers[n - 1]);
    }
  }

  lemma MoreHits(search: Search, workers: seq<Worker>, me: Worker)
    requires |workers| > 0 && workers[|workers| - 1] == me
    ensures |AllHits(search, workers)| == |AllHits(search, workers[..|workers| - 1])| + |Hits(search, me.tried)|
    ensures Counted(workers) == Counted(workers[..|workers| - 1]) + CountedBy(me)
    ensures HowManyTried(workers) == HowManyTried(workers[..|workers| - 1]) + |me.tried|
  {
    hide Hits, CountedBy;
  }

  /** Every hit is a code its worker hashed. */
  lemma {:induction false} HitsAreGenuine(search: Search, segments: seq<Segment>, stop: bool, workers: seq<Worker>,
                                          n: nat, c: nat) returns (i: nat)
    requires |workers| == |segments| && AllSound(search, segments, stop, workers) && n <= |segments|
    requires c in AllHits(search, workers[..n])
    ensures search.IsHit(c) && i < n && segments[i].0 <= c < segments[i].0 + segments[i].1
    ensures c in Hits(search, workers[i].tried)
  {
    hide Codes, Hits, Search.IsHit;
    i := n - 1;
    assert workers[..n][..i] == workers[..i];
    var me := workers[i];
    if c in Hits(search, me.tried) {
      HitsAre(search, me.tried, c);
      CodesAre(me.start, if AtHit(search, me) then me.code + 1 else me.code, c);
      assert Sound(search, segments[i], me);
    } else {
      i := HitsAreGenuine(search, segments, stop, workers, n - 1, c);
    }
  }

  /** A finished worker found a hit, or there is none in its segment, or the flag was raised. */
  lemma NothingMissed(search: Search, segments: seq<Segment>, s: State, i: nat, c: nat)
    requires !search.collectAll && Inv(search, segments, s) && i < |segments| && s.workers[i].phase == Done
    requires segments[i].0 <= c < segments[i].0 + segments[i].1 && search.IsHit(c)
    ensures s.channel != []
  {
    var me := s.workers[i];
    assert Sound(search, segments[i], me) && Exhausted(search, s.stop, me) && me.phase == Done;
    hide Codes, Hits, Search.IsHit;
    if AtHit(search, me) {
      CodesNext(me.start, me.code);
      HitWasSent(search, s.workers, i, me.code);
    } else if me.code == me.end {
      CodesAre(me.start, me.code, c);
      HitsAre(search, Codes(me.start, me.code), c);
    }
  }

  /** First-hit mode, every interleaving: when all workers have finished, a hit was sent if and only if the
      range holds one; all hits sent are hits of the range, at most one for each worker; and the counter is
      what was hashed less the hits, which stop their worker before it counts them. */
  lemma FirstModeFindsAHit(search: Search, segments: seq<Segment>, a: nat, b: nat, schedule: seq<(nat, bool)>)
    requires !search.collectAll && Covers(segments, a, b)
    requires Finished(Run(search, Spawn(segments), schedule))
    ensures var s := Run(search, Spawn(segments), schedule);
            && (s.channel != [] <==> exists c :: a <= c < b && search.IsHit(c))
            && (forall c :: c in s.channel ==> a <= c < b && search.IsHit(c))
            && |s.channel| <= |segments|
            && s.counter == HowManyTried(s.workers) - |s.channel|
  {
    var s := Run(search, Spawn(segments), schedule);
    RunKeepsInv(search, segments, schedule);
    FirstHitsSoFar(search, segments, s, |segments|);
    assert s.workers[..|segments|] == s.workers;
    assert |multiset(s.channel)| == |s.channel|;
    forall c | c in s.channel
      ensures a <= c < b && search.IsHit(c)
    {
      assert c in multiset(s.channel);
      var i := HitsAreGenuine(search, segments, s.stop, s.workers, |segments|, c);
      SegmentInside(segments, a, b, i);
    }
    if c :| a <= c < b && search.IsHit(c) {
      var i := SegmentOf(segments, a, b, |segments|, c);
      NothingMissed(search, segments, s, i, c);
    }
    if s.channel != [] {
      assert s.channel[0] in s.channel;
    }
  }

  /** At any moment, in either mode, each worker has hashed a first part of its own segment, in order and without
      repetition. */
  lemma HashedInOrder(search: Search, segments: seq<Segment>, schedule: seq<(nat, bool)>, i: nat)
    requires i < |segments|
    ensures var s := Run(search, Spawn(segments), schedule);
            && |s.workers| == |segments| && |s.workers[i].tried| <= segments[i].1
            && s.workers[i].tried == Codes(segments[i].0, segments[i].0 + |s.workers[i].tried|)
  {
    RunKeepsInv(search, segments, schedule);
    hide Run, Spawn, Codes, Hits, AllHits, Counted;
    var me := Run(search, Spawn(segments), schedule).workers[i];
    assert Sound(search, segments[i], me);
  }

  lemma RunNext(search: Search, s: State, schedule: seq<(nat, bool)>, w: nat, isFresh: bool)
    requires w < |Run(search, s, schedule).workers|
    ensures Run(search, s, schedule + [(w, isFresh)]) == Step(search, Run(search, s, schedule), w, isFresh)
  {
    assert (schedule + [(w, isFresh)])[..|schedule|] == schedule;
  }

  // ---------- every interleaving ends ----------

  function WorkLeft(w: Worker): int {
    match w.phase
    case Checking => 2 * (w.end - w.code) + 3
    case Hashing => 2 * (w.end - w.code) + 2
    case Raising => 2
    case Counting => 1
    case Done => 0
  }

  function TotalWork(workers: seq<Worker>): int {
    if workers == [] then 0 else TotalWork(workers[..|workers| - 1]) + WorkLeft(workers[|workers| - 1])
  }

  lemma {:induction false} WorkUpdate(workers: seq<Worker>, w: nat, me: Worker)
    requires w < |workers|
    ensures TotalWork(workers[w := me]) == TotalWork(workers) - WorkLeft(workers[w]) + WorkLeft(me)
  {
    var n := |workers| - 1;
    if w < n {
      WorkUpdate(workers[..n], w, me);
      assert workers[w := me][..n] == workers[..n][w := me];
    } else {
      assert workers[w := me][..n] == workers[..n];
    }
  }

  /** How many actions of a schedule are those of a worker that has not finished. */
  function Moves(search: Search, s: State, schedule: seq<(nat, bool)>): nat {
    if schedule == [] then 0
    else
      var rest, (w, _) := schedule[..|schedule| - 1], schedule[|schedule| - 1];
      var before := Run(search, s, rest);
      Moves(search, s, rest) + if w < |before.workers| && before.workers[w].phase != Done then 1 else 0
  }

  lemma OneMoreWorker(workers: seq<Worker>, n: nat)
    requires n < |workers|
    ensures TotalWork(workers[..n + 1]) == TotalWork(workers[..n]) + WorkLeft(workers[n])
  {
    assert workers[..n + 1][..n] == workers[..n];
  }

  lemma NoWork(workers: seq<Worker>)
    ensures TotalWork(workers[..0]) == 0
  {
  }

  lemma {:induction false} SpawnWork(segments: seq<Segment>, a: nat, b: nat, workers: seq<Worker>, n: nat)
    requires Covers(segments, a, b) && |workers| == |segments| && n <= |segments|
    requires forall i :: 0 <= i < |segments| ==> WorkLeft(workers[i]) == 2 * segments[i].1 + 3
    ensures TotalWork(workers[..n]) == 2 * (EndOf(segments, a, n) - a) + 3 * n
  {
    hide *;
    if n == 0 {
      NoWork(workers);
      CoversEnds(segments, a, b);
    } else {
      SpawnWork(segments, a, b, workers, n - 1);
      SegmentFollows(segments, a, b, n - 1);
      OneMoreWorker(workers, n - 1);
    }
  }

  lemma ActWorks(search: Search, segment: Segment, me: Worker, stop: bool, isFresh: bool)
    requires Sound(search, segment, me)
    ensures WorkLeft(Act(search, me, stop, isFresh).worker) + (if me.phase == Done then 0 else 1) <= WorkLeft(me)
  {
    hide Codes, Hits, Search.IsHit;
  }

  lemma {:induction false} WorkSpent(search: Search, segments: seq<Segment>, schedule: seq<(nat, bool)>)
    ensures var s0 := Spawn(segments);
            Moves(search, s0, schedule) + TotalWork(Run(search, s0, schedule).workers) <= TotalWork(s0.workers)
  {
    if schedule != [] {
      var rest := schedule[..|schedule| - 1];
      var (w, isFresh) := schedule[|schedule| - 1];
      var before := Run(search, Spawn(segments), rest);
      WorkSpent(search, segments, rest);
      RunKeepsInv(search, segments, rest);
      if w < |before.workers| {
        ActWorks(search, segments[w], before.workers[w], before.stop, isFresh);
        WorkUpdate(before.workers, w, Act(search, before.workers[w], before.stop, isFresh).worker);
      }
      hide Spawn, Inv, TotalWork, Act, WorkLeft;
    }
  }

  lemma {:induction false} WorkNonNegative(search: Search, segments: seq<Segment>, stop: bool, workers: seq<Worker>,
                                           n: nat)
    requires |workers| == |segments| && AllSound(search, segments, stop, workers) && n <= |segments|
    ensures TotalWork(workers[..n]) >= 0
  {
    if n > 0 {
      WorkNonNegative(search, segments, stop, workers, n - 1);
      assert workers[..n][..n - 1] == workers[..n - 1];
      assert Sound(search, segments[n - 1], workers[n - 1]);
      hide Codes, Hits, Search.IsHit;
    }
  }

  /** However the workers are interleaved, they make at most two moves for each code and three for each worker. */
  lemma WorkersFinish(search: Search, segments: seq<Segment>, a: nat, b: nat, schedule: seq<(nat, bool)>)
    requires Covers(segments, a, b)
    ensures Moves(search, Spawn(segments), schedule) <= 2 * (b - a) + 3 * |segments|
  {
    hide Run, Moves, TotalWork, AllHits, Counted, AllSound;
    var s := Run(search, Spawn(segments), schedule);
    SpawnWork(segments, a, b, Spawn(segments).workers, |segments|);
    WorkSpent(search, segments, schedule);
    RunKeepsInv(search, segments, schedule);
    WorkNonNegative(search, segments, s.stop, s.workers, |segments|);
    CoversEnds(segments, a, b);
    assert s.workers[..|segments|] == s.workers && Spawn(segments).workers[..|segments|] == Spawn(segments).workers;
  }
}
