/**
  The load generator: its worker pool under every interleaving, the split of the
  write workload into batches, its statistics, and its final verdict.
 */
module LoadGen {
  import opened Model
  import opened Reconcile

  datatype Sample = Sample(status: int, message: string, failed: bool, latency: real)

  // ---------- the worker pool ----------

  datatype Phase = Idle | Calling(index: nat) | Exited

  /** `deadline == None` is the counted mode; otherwise the pool stops by the clock. */
  datatype Pool = Pool(phases: seq<Phase>, next: nat, order: seq<nat>, count: nat, timed: bool)

  /** One locked section: take the next index or leave, or hand in a result. */
  datatype Move = Take(worker: nat, expired: bool) | HandIn(worker: nat)

  predicate Stops(p: Pool, expired: bool) {
    if p.timed then expired else p.next >= p.count
  }

  predicate Enabled(p: Pool, m: Move) {
    m.worker < |p.phases| && if m.Take? then p.phases[m.worker] == Idle else p.phases[m.worker].Calling?
  }

  function Step(p: Pool, m: Move): Pool {
    if !Enabled(p, m) then p
    else
      match m
      case Take(i, expired) =>
        if Stops(p, expired) then p.(phases := p.phases[i := Exited])
        else p.(phases := p.phases[i := Calling(p.next)], next := p.next + 1)
      case HandIn(i) => p.(phases := p.phases[i := Idle], order := p.order + [p.phases[i].index])
  }

  function Play(p: Pool, moves: seq<Move>): Pool
    decreases |moves|
  {
    if moves == [] then p else Play(Step(p, moves[0]), moves[1..])
  }

  function Start(workers: nat, count: nat, timed: bool): Pool {
    Pool(seq(workers, _ => Idle), 0, [], count, timed)
  }

  function Range(n: nat): multiset<nat> {
    if n == 0 then multiset{} else Range(n - 1) + multiset{n - 1}
  }

  /** How many workers are in a phase that `f` accepts. */
  function Workers(phases: seq<Phase>, f: Phase -> bool): nat {
    if phases == [] then 0 else Bit(f(phases[0])) + Workers(phases[1..], f)
  }

  function CallsIndex(x: nat): Phase -> bool {
    (ph: Phase) => ph == Calling(x)
  }

  function Busy(): Phase -> bool {
    (ph: Phase) => ph.Calling?
  }

  function Staying(): Phase -> bool {
    (ph: Phase) => ph != Exited
  }

  lemma {:induction false} WorkersAfter(phases: seq<Phase>, i: nat, ph: Phase, f: Phase -> bool)
    requires i < |phases|
    ensures Workers(phases[i := ph], f) + Bit(f(phases[i])) == Workers(phases, f) + Bit(f(ph))
  {
    if i == 0 {
      assert phases[i := ph][1..] == phases[1..];
    } else {
      assert phases[i := ph][1..] == phases[1..][i - 1 := ph];
      WorkersAfter(phases[1..], i - 1, ph, f);
    }
  }

  lemma {:induction false} WorkersBounded(phases: seq<Phase>, f: Phase -> bool)
    ensures Workers(phases, f) <= |phases|
    ensures (forall ph :: ph in phases ==> !f(ph)) ==> Workers(phases, f) == 0
  {
    if phases != [] { WorkersBounded(phases[1..], f); }
  }

  lemma {:induction false} RangeSize(n: nat)
    ensures |Range(n)| == n
    ensures forall i: nat :: Range(n)[i] == Bit(i < n)
  {
    if n > 0 {
      RangeSize(n - 1);
      forall i: nat ensures Range(n)[i] == Bit(i < n) {
        assert Range(n)[i] == Range(n - 1)[i] + multiset{n - 1}[i];
      }
    }
  }

  /** How often index `x` has been handed out: finished calls and calls in flight. */
  function HandedOut(p: Pool, x: nat): nat {
    multiset(p.order)[x] + Workers(p.phases, CallsIndex(x))
  }

  ghost predicate PoolOk(p: Pool) {
    && (forall x: nat :: HandedOut(p, x) == Bit(x < p.next))
    && (!p.timed ==> p.next <= p.count)
    && (Exited in p.phases && !p.timed ==> p.next == p.count)
  }

  lemma StartOk(workers: nat, count: nat, timed: bool)
    ensures PoolOk(Start(workers, count, timed))
  {
    var p := Start(workers, count, timed);
    forall x: nat ensures HandedOut(p, x) == Bit(x < p.next) {
      WorkersBounded(p.phases, CallsIndex(x));
    }
  }

  lemma StepHandsOut(p: Pool, m: Move, x: nat)
    requires Enabled(p, m)
    ensures HandedOut(Step(p, m), x) == HandedOut(p, x) + Bit(Step(p, m).next > p.next && x == p.next)
  {
    hide Workers;
    var ph := Step(p, m).phases[m.worker];
    WorkersAfter(p.phases, m.worker, ph, CallsIndex(x));
    if m.HandIn? {
      var index := p.phases[m.worker].index;
      assert multiset(p.order + [index])[x] == multiset(p.order)[x] + multiset([index])[x];
    }
  }

  lemma StepOk(p: Pool, m: Move)
    requires PoolOk(p)
    ensures PoolOk(Step(p, m)) && |Step(p, m).phases| == |p.phases|
  {
    if Enabled(p, m) {
      var p' := Step(p, m);
      forall x: nat ensures HandedOut(p', x) == Bit(x < p'.next) {
        StepHandsOut(p, m, x);
      }
      hide HandedOut;
      if k :| 0 <= k < |p'.phases| && p'.phases[k] == Exited && k != m.worker {
        assert p.phases[k] == Exited;
      }
    }
  }

  /**
    In every interleaving each index below `next` is handed out exactly once: it
    is either finished or in flight. No more than `workers` are in flight, and
    in counted mode no index reaches `count`.
   */
  lemma {:induction false} EveryIndexOnce(p: Pool, moves: seq<Move>)
    requires PoolOk(p)
    ensures var end := Play(p, moves);
            && |end.phases| == |p.phases| && Workers(end.phases, Busy()) <= |p.phases|
            && (forall x: nat :: multiset(end.order)[x] + Workers(end.phases, CallsIndex(x)) == Bit(x < end.next))
            && (!end.timed ==> end.next <= end.count)
            && PoolOk(end)
    decreases |moves|
  {
    hide Step, Workers;
    if moves == [] {
      WorkersBounded(p.phases, Busy());
      forall x: nat ensures multiset(p.order)[x] + Workers(p.phases, CallsIndex(x)) == Bit(x < p.next) {
        assert HandedOut(p, x) == Bit(x < p.next);
      }
    } else {
      StepOk(p, moves[0]);
      EveryIndexOnce(Step(p, moves[0]), moves[1..]);
    }
  }

  ghost predicate Finished(p: Pool) {
    forall ph :: ph in p.phases ==> ph == Exited
  }

  /** When the last worker has left a counted pool, the calls made are 0 to count - 1, each once. */
  lemma FinishedCounted(p: Pool)
    requires PoolOk(p) && Finished(p) && !p.timed && |p.phases| > 0
    ensures multiset(p.order) == Range(p.count) && |p.order| == p.count
  {
    assert p.phases[0] in p.phases;
    RangeSize(p.count);
    forall x: nat ensures multiset(p.order)[x] == Range(p.count)[x] {
      WorkersBounded(p.phases, CallsIndex(x));
      assert HandedOut(p, x) == Bit(x < p.next);
    }
    assert multiset(p.order) == Range(p.count);
    assert |multiset(p.order)| == |p.order|;
  }

  /** Work left: each index still to hand out costs two sections, each call in flight one, each worker one to leave. */
  function WorkLeft(p: Pool): nat {
    2 * (if p.next < p.count then p.count - p.next else 0) + Workers(p.phases, Busy()) + Workers(p.phases, Staying())
  }

  /** Every section makes progress, so a counted pool ends under every scheduler. */
  lemma Progress(p: Pool, m: Move)
    requires Enabled(p, m) && !p.timed
    ensures WorkLeft(Step(p, m)) < WorkLeft(p)
  {
    hide Workers;
    var ph := Step(p, m).phases[m.worker];
    WorkersAfter(p.phases, m.worker, ph, Busy());
    WorkersAfter(p.phases, m.worker, ph, Staying());
  }

  /** The pool on any schedule: the scheduler picks any worker that has not left. */
  method RunLoad(workers: nat, count: nat, call: nat -> Sample) returns (results: seq<Sample>, order: seq<nat>)
    requires workers > 0
    ensures |results| == count == |order| && multiset(order) == Range(count)
    ensures forall k :: 0 <= k < count ==> results[k] == call(order[k])
  {
    hide PoolOk, WorkLeft;
    results, order := [], [];
    var phases: seq<Phase>, next: nat := seq(workers, _ => Idle), 0;
    StartOk(workers, count, false);
    while exists i :: 0 <= i < |phases| && phases[i] != Exited
      invariant PoolOk(Pool(phases, next, order, count, false)) && |phases| == workers
      invariant |results| == |order| && forall k :: 0 <= k < |order| ==> results[k] == call(order[k])
      decreases WorkLeft(Pool(phases, next, order, count, false))
    {
      ghost var p := Pool(phases, next, order, count, false);
      var i :| 0 <= i < |phases| && phases[i] != Exited;
      ghost var move := if phases[i] == Idle then Move.Take(i, false) else HandIn(i);
      StepOk(p, move);
      Progress(p, move);
      if phases[i] == Idle {
        if next >= count {
          phases := phases[i := Exited];
        } else {
          phases := phases[i := Calling(next)];
          next := next + 1;
        }
      } else {
        results := results + [call(phases[i].index)];
        order := order + [phases[i].index];
        phases := phases[i := Idle];
      }
      assert Pool(phases, next, order, count, false) == Step(p, move);
    }
    FinishedCounted(Pool(phases, next, order, count, false));
  }

  // ---------- write batches ----------

  function Smaller(x: int, y: int): int {
    if x < y then x else y
  }

  function Batches(writes: nat, size: nat): nat
    requires size > 0
  {
    (writes + size - 1) / size
  }

  function BatchStock(writes: nat, size: nat, batch: nat): int {
    Smaller(size, writes - batch * size)
  }

  lemma Times(a: int, b: int, size: nat)
    requires a <= b
    ensures a * size <= b * size
  {
  }

  lemma Division(i: nat, size: nat)
    requires size > 0
    ensures i == (i / size) * size + i % size && 0 <= i % size < size && 0 <= i / size
  {
  }

  /** `i / size` is the batch whose span contains `i`. */
  lemma BatchOf(i: nat, size: nat, batch: nat)
    requires size > 0
    ensures i / size == batch <==> batch * size <= i < batch * size + size
  {
    Division(i, size);
    var q := i / size;
    if batch < q {
      Times(batch + 1, q, size);
    } else if q < batch {
      Times(q + 1, batch, size);
    }
  }

  lemma QuotientBelow(i: nat, size: nat, n: nat)
    requires size > 0 && i < n * size
    ensures i / size < n
  {
    Division(i, size);
    if n <= i / size {
      Times(n, i / size, size);
    }
  }

  lemma BatchCount(writes: nat, size: nat)
    requires size > 0
    ensures var n := Batches(writes, size);
            n * size >= writes && (n > 0 ==> (n - 1) * size < writes) && (writes > 0 ==> n > 0)
  {
    Division(writes + size - 1, size);
    var n := Batches(writes, size);
    assert n * size == (n - 1) * size + size;
  }

  /** Request `i` uses an existing batch and an existing user, and no two requests use the same pair. */
  lemma BatchSlots(writes: nat, users: nat, i: nat, j: nat)
    requires users > 0 && i < writes && j < writes
    ensures var size := Smaller(users, 100);
            && 0 <= i / size < Batches(writes, size)
            && 0 <= i % size < users
            && (i / size == j / size && i % size == j % size ==> i == j)
  {
    var size := Smaller(users, 100);
    Division(i, size);
    Division(j, size);
    BatchCount(writes, size);
    QuotientBelow(i, size, Batches(writes, size));
  }

  function RequestsOf(writes: nat, size: nat, batch: nat): set<nat>
    requires size > 0
  {
    set i | 0 <= i < writes && i / size == batch
  }

  predicate InSpan(i: nat, from: nat, length: nat) {
    from <= i < from + length
  }

  function Span(from: nat, length: nat): set<nat> {
    set i | 0 <= i < from + length && InSpan(i, from, length)
  }

  lemma {:induction false} SpanSize(from: nat, length: nat)
    ensures |Span(from, length)| == length
    decreases length
  {
    if length == 0 {
      assert Span(from, length) == {};
    } else {
      SpanSize(from, length - 1);
      assert Span(from, length) == Span(from, length - 1) + {from + length - 1};
    }
  }

  /** Each batch gets exactly as many requests as the stock its activity was created with, all of different users. */
  lemma BatchGetsItsStock(writes: nat, size: nat, batch: nat)
    requires size > 0 && batch < Batches(writes, size)
    ensures 0 < BatchStock(writes, size, batch) <= size
    ensures |RequestsOf(writes, size, batch)| == BatchStock(writes, size, batch)
  {
    BatchCount(writes, size);
    var n := Batches(writes, size);
    Times(batch, n - 1, size);
    var stock := BatchStock(writes, size, batch);
    SpanSize(batch * size, stock);
    forall i: nat ensures i in RequestsOf(writes, size, batch) <==> i in Span(batch * size, stock) {
      BatchOf(i, size, batch);
    }
    assert RequestsOf(writes, size, batch) == Span(batch * size, stock);
  }

  /** The stocks of all batches, created in a loop, add up to the number of writes. */
  method CreateBatches(writes: nat, size: nat) returns (stocks: seq<int>, total: int)
    requires size > 0
    ensures |stocks| == Batches(writes, size) && total == writes
    ensures forall b :: 0 <= b < |stocks| ==> stocks[b] == |RequestsOf(writes, size, b)|
  {
    stocks, total := [], 0;
    BatchCount(writes, size);
    for batch := 0 to Batches(writes, size)
      invariant |stocks| == batch && total == Smaller(batch * size, writes)
      invariant forall b :: 0 <= b < batch ==> stocks[b] == |RequestsOf(writes, size, b)|
    {
      BatchGetsItsStock(writes, size, batch);
      assert (batch + 1) * size == batch * size + size;
      stocks := stocks + [BatchStock(writes, size, batch)];
      total := total + stocks[batch];
    }
  }

  // ---------- statistics ----------

  ghost predicate Ascending(s: seq<real>) {
    forall i, j :: 0 <= i < j < |s| ==> s[i] <= s[j]
  }

  function Insert(x: real, s: seq<real>): seq<real> {
    if s == [] || x <= s[0] then [x] + s else [s[0]] + Insert(x, s[1..])
  }

  function Sorted(s: seq<real>): seq<real> {
    if s == [] then [] else Insert(s[0], Sorted(s[1..]))
  }

  lemma {:induction false} InsertElements(x: real, s: seq<real>)
    ensures multiset(Insert(x, s)) == multiset([x] + s)
  {
    if s == [] || x <= s[0] {
    } else {
      InsertElements(x, s[1..]);
      assert s == [s[0]] + s[1..];
    }
  }

  lemma {:induction false} InsertAscends(x: real, s: seq<real>)
    requires Ascending(s)
    ensures Ascending(Insert(x, s)) && Insert(x, s) != []
      && (Insert(x, s)[0] == x || (s != [] && Insert(x, s)[0] == s[0]))
  {
    if s == [] || x <= s[0] {
    } else {
      InsertAscends(x, s[1..]);
      AscendingCons(s[0], Insert(x, s[1..]));
    }
  }

  lemma AscendingCons(x: real, s: seq<real>)
    requires Ascending(s) && (s == [] || x <= s[0])
    ensures Ascending([x] + s)
  {
  }

  lemma {:induction false} SortedIs(s: seq<real>)
    ensures Ascending(Sorted(s)) && multiset(Sorted(s)) == multiset(s) && |Sorted(s)| == |s|
  {
    hide Insert;
    if s != [] {
      SortedIs(s[1..]);
      InsertAscends(s[0], Sorted(s[1..]));
      InsertElements(s[0], Sorted(s[1..]));
      assert s == [s[0]] + s[1..];
    }
    assert |multiset(Sorted(s))| == |Sorted(s)| && |multiset(s)| == |s|;
  }

  function Ceil(x: real): int {
    -(0.0 - x).Floor
  }

  function Rank(p: real, n: nat): int {
    Ceil(p * n as real) - 1
  }

  lemma RankBounds(p: real, n: nat)
    requires 0.0 < p <= 1.0 && n > 0
    ensures 0 <= Rank(p, n) < n
    ensures Rank(p, n) as real < p * n as real <= (Rank(p, n) + 1) as real
  {
    assert p * n as real > 0.0;
    assert (1.0 - p) * n as real >= 0.0;
    assert p * n as real <= n as real;
  }

  function Percentile(sorted: seq<real>, p: real): real
    requires 0.0 < p <= 1.0
  {
    if |sorted| == 0 then 0.0 else RankBounds(p, |sorted|); sorted[Rank(p, |sorted|)]
  }

  function AtMost(s: seq<real>, x: real): nat {
    if s == [] then 0 else Bit(s[|s| - 1] <= x) + AtMost(s[..|s| - 1], x)
  }

  lemma {:induction false} AtMostSorted(s: seq<real>, x: real, k: nat)
    requires Ascending(s) && k < |s|
    ensures s[k] <= x ==> AtMost(s, x) >= k + 1
    ensures x < s[k] ==> AtMost(s, x) <= k
    decreases |s|
  {
    var t := s[..|s| - 1];
    if k < |t| {
      AtMostSorted(t, x, k);
    } else {
      AtMostBound(t, x);
      if s[k] <= x { AllAtMost(t, x); }
    }
  }

  lemma {:induction false} AtMostBound(s: seq<real>, x: real)
    ensures AtMost(s, x) <= |s|
  {
    if s != [] { AtMostBound(s[..|s| - 1], x); }
  }

  lemma {:induction false} AllAtMost(s: seq<real>, x: real)
    requires forall i :: 0 <= i < |s| ==> s[i] <= x
    ensures AtMost(s, x) == |s|
  {
    if s != [] { AllAtMost(s[..|s| - 1], x); }
  }

  /** Nearest rank: the least sample that at least a fraction `p` of the samples do not exceed. */
  lemma PercentileIsNearestRank(s: seq<real>, p: real)
    requires Ascending(s) && s != [] && 0.0 < p <= 1.0
    ensures var v := Percentile(s, p);
            && v in s
            && AtMost(s, v) as real >= p * |s| as real
            && forall u :: u in s && AtMost(s, u) as real >= p * |s| as real ==> v <= u
  {
    RankBounds(p, |s|);
    var k := Rank(p, |s|);
    hide AtMost, Rank;
    AtMostSorted(s, s[k], k);
    forall u | u in s && u < s[k] ensures (AtMost(s, u) as real) < p * |s| as real {
      AtMostSorted(s, u, k);
    }
  }

  lemma PercentileGrows(s: seq<real>, p: real, q: real)
    requires Ascending(s) && s != [] && 0.0 < p <= q <= 1.0
    ensures Percentile(s, p) <= Percentile(s, q) <= s[|s| - 1]
  {
    RankBounds(p, |s|);
    RankBounds(q, |s|);
    assert (q - p) * |s| as real >= 0.0;
    assert p * |s| as real <= q * |s| as real;
  }

  /** The status of an accepted order. */
  const ACCEPTED := 202

  datatype LoadReport = LoadReport(
    requests: nat, statuses: map<int, nat>, messages: map<string, nat>, systemErrors: nat, systemErrorRate: real,
    mean: real, p50: real, p95: real, p99: real, max: real, qps: real, acceptedQps: real)

  function WithStatus(samples: seq<Sample>, status: int): nat {
    if samples == [] then 0
    else WithStatus(samples[..|samples| - 1], status) + Bit(samples[|samples| - 1].status == status)
  }

  function WithMessage(samples: seq<Sample>, message: string): nat {
    if samples == [] then 0
    else WithMessage(samples[..|samples| - 1], message) + Bit(samples[|samples| - 1].message == message)
  }

  predicate SystemError(s: Sample) {
    s.failed || s.status >= 500
  }

  function Errors(samples: seq<Sample>): nat {
    if samples == [] then 0 else Errors(samples[..|samples| - 1]) + Bit(SystemError(samples[|samples| - 1]))
  }

  /** System errors are the samples whose call failed or that answered 500 or more. */
  lemma {:induction false} ErrorsAre(samples: seq<Sample>)
    ensures Errors(samples) == |set i | 0 <= i < |samples| && (samples[i].failed || samples[i].status >= 500)|
  {
    var all := set i | 0 <= i < |samples| && (samples[i].failed || samples[i].status >= 500);
    if samples == [] {
      assert all == {};
    } else {
      var k := |samples| - 1;
      ErrorsAre(samples[..k]);
      var before := set i | 0 <= i < k && (samples[..k][i].failed || samples[..k][i].status >= 500);
      assert all == before + (if samples[k].failed || samples[k].status >= 500 then {k} else {});
    }
  }

  function LatencySum(samples: seq<Sample>): real {
    if samples == [] then 0.0 else LatencySum(samples[..|samples| - 1]) + samples[|samples| - 1].latency
  }

  function Latencies(samples: seq<Sample>): seq<real> {
    seq(|samples|, i requires 0 <= i < |samples| => samples[i].latency)
  }

  function CountIn<K>(counts: map<K, nat>, k: K): nat {
    if k in counts then counts[k] else 0
  }

  method Summarize(samples: seq<Sample>, elapsed: real) returns (r: LoadReport)
    ensures r.requests == |samples| && r.systemErrors == Errors(samples)
    ensures forall status :: CountIn(r.statuses, status) == WithStatus(samples, status)
    ensures forall message :: CountIn(r.messages, message) == WithMessage(samples, message)
    ensures samples != [] ==> r.systemErrorRate * |samples| as real == Errors(samples) as real
    ensures samples != [] && elapsed > 0.0 ==>
      r.qps * elapsed == |samples| as real && r.acceptedQps * elapsed == WithStatus(samples, 202) as real
    ensures samples == [] || elapsed <= 0.0 ==> r.qps == r.acceptedQps == 0.0
    ensures samples != [] ==> r.mean * |samples| as real == LatencySum(samples)
    ensures samples != [] ==> r.p50 <= r.p95 <= r.p99 <= r.max
    ensures samples != [] ==>
      && (forall s :: s in samples ==> s.latency <= r.max)
      && exists s :: s in samples && s.latency == r.max
    ensures samples != [] ==>
      var sorted := Sorted(Latencies(samples));
      r.p50 == Percentile(sorted, 0.5) && r.p95 == Percentile(sorted, 0.95) && r.p99 == Percentile(sorted, 0.99)
  {
    hide WithStatus, WithMessage, Errors, LatencySum, Percentile, Sorted, Ascending;
    NoSamples();
    var statuses: map<int, nat>, messages: map<string, nat> := map[], map[];
    var errors, sum, latencies: seq<real> := 0, 0.0, [];
    for i := 0 to |samples|
      invariant forall status :: CountIn(statuses, status) == WithStatus(samples[..i], status)
      invariant forall message :: CountIn(messages, message) == WithMessage(samples[..i], message)
      invariant errors == Errors(samples[..i]) && sum == LatencySum(samples[..i])
      invariant |latencies| == i && forall k :: 0 <= k < i ==> latencies[k] == samples[k].latency
    {
      OneMoreSample(samples, i);
      var s := samples[i];
      ghost var before, said := statuses, messages;
      statuses := statuses[s.status := CountIn(statuses, s.status) + 1];
      messages := messages[s.message := CountIn(messages, s.message) + 1];
      forall message ensures CountIn(messages, message) == WithMessage(samples[..i + 1], message) {
        assert CountIn(said, message) == WithMessage(samples[..i], message);
      }
      forall status ensures CountIn(statuses, status) == WithStatus(samples[..i + 1], status) {
        assert CountIn(before, status) == WithStatus(samples[..i], status);
      }
      if s.failed || s.status >= 500 { errors := errors + 1; }
      latencies := latencies + [s.latency];
      sum := sum + s.latency;
    }
    assert samples[..|samples|] == samples;
    if samples == [] { return LoadReport(0, statuses, messages, errors, 0.0, 0.0, 0.0, 0.0, 0.0, 0.0, 0.0, 0.0); }
    assert latencies == Latencies(samples);
    var sorted := Sorted(latencies);
    SortedIs(latencies);
    PercentileGrows(sorted, 0.5, 0.95);
    PercentileGrows(sorted, 0.95, 0.99);
    LargestLast(samples, sorted);
    var qps, acceptedQps := 0.0, 0.0;
    if elapsed > 0.0 {
      qps := |samples| as real / elapsed;
      acceptedQps := CountIn(statuses, ACCEPTED) as real / elapsed;
    }
    return LoadReport(|samples|, statuses, messages, errors,
                      errors as real / |samples| as real, sum / |samples| as real,
                      Percentile(sorted, 0.5), Percentile(sorted, 0.95), Percentile(sorted, 0.99), sorted[|sorted| - 1],
                      qps, acceptedQps);
  }

  lemma NoSamples()
    ensures Errors([]) == 0 && LatencySum([]) == 0.0
    ensures forall status :: WithStatus([], status) == 0
    ensures forall message :: WithMessage([], message) == 0
  {
  }

  lemma OneMoreSample(samples: seq<Sample>, i: nat)
    requires i < |samples|
    ensures Errors(samples[..i + 1]) == Errors(samples[..i]) + Bit(SystemError(samples[i]))
    ensures LatencySum(samples[..i + 1]) == LatencySum(samples[..i]) + samples[i].latency
    ensures forall status ::
      WithStatus(samples[..i + 1], status) == WithStatus(samples[..i], status) + Bit(samples[i].status == status)
    ensures forall message ::
      WithMessage(samples[..i + 1], message) == WithMessage(samples[..i], message) + Bit(samples[i].message == message)
  {
    assert samples[..i + 1][..i] == samples[..i];
  }

  lemma LargestLast(samples: seq<Sample>, sorted: seq<real>)
    requires samples != [] && |sorted| == |samples|
    requires Ascending(sorted) && multiset(sorted) == multiset(Latencies(samples))
    ensures forall s :: s in samples ==> s.latency <= sorted[|sorted| - 1]
    ensures exists s :: s in samples && s.latency == sorted[|sorted| - 1]
  {
    var all := Latencies(samples);
    forall s | s in samples ensures s.latency <= sorted[|sorted| - 1] {
      var i :| 0 <= i < |samples| && samples[i] == s;
      assert all[i] in multiset(all);
      assert s.latency in multiset(sorted);
    }
    var last := sorted[|sorted| - 1];
    assert last in multiset(sorted);
    assert last in multiset(all);
    var i :| 0 <= i < |all| && all[i] == last;
    assert samples[i] in samples;
  }

  // ---------- the verdict ----------

  datatype OrderSeen = OrderSeen(no: OrderNo, user: UserId, status: OrderStatus)

  function UsersOf(orders: seq<OrderSeen>): set<UserId> {
    set i | 0 <= i < |orders| :: orders[i].user
  }

  ghost predicate DistinctUsers(orders: seq<OrderSeen>) {
    forall i, j :: 0 <= i < j < |orders| ==> orders[i].user != orders[j].user
  }

  lemma OneMoreUser(orders: seq<OrderSeen>, i: nat)
    requires i < |orders|
    ensures UsersOf(orders[..i + 1]) == UsersOf(orders[..i]) + {orders[i].user}
    ensures DistinctUsers(orders[..i + 1]) <==> DistinctUsers(orders[..i]) && orders[i].user !in UsersOf(orders[..i])
  {
    assert forall k :: 0 <= k < i ==> orders[..i][k] == orders[k] && orders[..i + 1][k] == orders[k];
    assert orders[..i + 1][i] == orders[i];
  }

  lemma {:induction false} DistinctCount(orders: seq<OrderSeen>)
    ensures DistinctUsers(orders) <==> |UsersOf(orders)| == |orders|
    ensures |UsersOf(orders)| <= |orders|
    decreases |orders|
  {
    if orders == [] {
      assert UsersOf(orders) == {};
    } else {
      var k := |orders| - 1;
      hide DistinctUsers, UsersOf;
      OneMoreUser(orders, k);
      assert orders[..k + 1] == orders;
      DistinctCount(orders[..k]);
      if orders[k].user in UsersOf(orders[..k]) {
        assert UsersOf(orders) == UsersOf(orders[..k]);
      }
    }
  }

  /** A verdict, or an error; the number of the first order is handed on only with a positive verdict. */
  datatype Verdict = UnexpectedState | Failed | NothingToQuery | Passed(first: OrderNo)

  method Verify(total: nat, orders: seq<OrderSeen>, accepted: nat, mysqlStock: int, initial: int, report: Report)
      returns (verdict: Verdict)
    ensures verdict == UnexpectedState <==> exists i :: 0 <= i < |orders| && orders[i].status != WaitPay
    ensures verdict.Passed? || verdict == NothingToQuery <==>
      && (forall i :: 0 <= i < |orders| ==> orders[i].status == WaitPay)
      && total == accepted == |orders| == |UsersOf(orders)|
      && mysqlStock == initial - accepted
      && RedisMatches(report)
    ensures verdict == NothingToQuery ==> orders == []
    ensures verdict.Passed? ==> orders != [] && verdict.first == orders[0].no
  {
    var seen: set<UserId>, duplicate := {}, false;
    for i := 0 to |orders|
      invariant seen == UsersOf(orders[..i]) && duplicate == !DistinctUsers(orders[..i])
      invariant forall k :: 0 <= k < i ==> orders[k].status == WaitPay
    {
      var o := orders[i];
      OneMoreUser(orders, i);
      if o.user in seen { duplicate := true; }
      seen := seen + {o.user};
      if o.status != WaitPay { return UnexpectedState; }
    }
    assert orders[..|orders|] == orders;
    DistinctCount(orders);
    var redisMatches := report.checked == 1 && report.missing == 0 && report.mismatched == 0 && |report.items| == 0;
    if !(total == accepted && mysqlStock == initial - accepted && redisMatches && !duplicate && total == |orders|) {
      return Failed;
    }
    if |orders| == 0 { return NothingToQuery; }
    return Passed(orders[0].no);
  }
}
