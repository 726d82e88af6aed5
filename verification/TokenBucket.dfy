/**
  The token-bucket rate limiter: how many requests pass in any window, and when
  exactly a request passes, for every sequence of calls on any clock.
 */
module TokenBucket {
  datatype Bucket = Bucket(rps: real, burst: real, tokens: real, lastFill: real)

  predicate Valid(b: Bucket) {
    b.rps > 0.0 && b.burst >= 1.0 && 0.0 <= b.tokens <= b.burst
  }

  predicate Full(b: Bucket) {
    Valid(b) && b.tokens == b.burst
  }

  function Least(x: real, y: real): real {
    if y < x then y else x
  }

  /** Tokens earned in a span of time. */
  function Earned(rate: real, seconds: real): real {
    seconds * rate
  }

  lemma EarnedIs(rate: real, seconds: real)
    ensures Earned(rate, seconds) == seconds * rate
  {
  }

  lemma EarnedAdds(rate: real, x: real, y: real)
    ensures Earned(rate, x + y) == Earned(rate, x) + Earned(rate, y)
  {
  }

  lemma EarnedSign(rate: real, x: real)
    requires rate > 0.0
    ensures x > 0.0 <==> Earned(rate, x) > 0.0
    ensures x == 0.0 <==> Earned(rate, x) == 0.0
  {
    if x > 0.0 { assert x * rate > 0.0; } else if x < 0.0 { assert (0.0 - x) * rate > 0.0; }
  }

  function Refilled(b: Bucket, now: real): Bucket {
    if now - b.lastFill > 0.0 then
      b.(tokens := Least(b.tokens + Earned(b.rps, now - b.lastFill), b.burst), lastFill := now)
    else b
  }

  function Allowed(b: Bucket, now: real): (Bucket, bool) {
    var f := Refilled(b, now);
    if f.tokens < 1.0 then (f, false) else (f.(tokens := f.tokens - 1.0), true)
  }

  // ---------- sequences of calls ----------

  /** The bucket after the first `n` calls. */
  function After(b: Bucket, calls: seq<real>, n: nat): Bucket
    requires n <= |calls|
  {
    if n == 0 then b else Allowed(After(b, calls, n - 1), calls[n - 1]).0
  }

  predicate Admitted(b: Bucket, calls: seq<real>, n: nat)
    requires n < |calls|
  {
    Allowed(After(b, calls, n), calls[n]).1
  }

  /** Admitted calls among `j..n-1`. */
  function AdmittedIn(b: Bucket, calls: seq<real>, j: nat, n: nat): nat
    requires j <= n <= |calls|
  {
    if j == n then 0 else AdmittedIn(b, calls, j, n - 1) + if Admitted(b, calls, n - 1) then 1 else 0
  }

  /** Time as the limiter sees it: the latest of its start and all calls up to `n`. */
  function Clock(b: Bucket, calls: seq<real>, n: nat): real
    requires n < |calls|
  {
    var before := if n == 0 then b.lastFill else Clock(b, calls, n - 1);
    if before < calls[n] then calls[n] else before
  }

  /** Tokens that call `n` finds. */
  function Found(b: Bucket, calls: seq<real>, n: nat): real
    requires n < |calls|
  {
    Refilled(After(b, calls, n), calls[n]).tokens
  }

  /** What the window from call `j` to call `n` still has to give. */
  function Room(b: Bucket, calls: seq<real>, j: nat, n: nat): real
    requires j <= n < |calls|
  {
    b.burst + Earned(b.rps, Clock(b, calls, n) - Clock(b, calls, j)) - AdmittedIn(b, calls, j, n) as real
  }

  lemma {:induction false} AfterValid(b: Bucket, calls: seq<real>, n: nat)
    requires Valid(b) && n <= |calls|
    ensures var c := After(b, calls, n); Valid(c) && c.rps == b.rps && c.burst == b.burst
    decreases n
  {
    if n > 0 {
      AfterValid(b, calls, n - 1);
      RefilledValid(After(b, calls, n - 1), calls[n - 1]);
    }
  }

  lemma RefilledValid(b: Bucket, now: real)
    requires Valid(b)
    ensures var f := Refilled(b, now);
            Valid(f) && f.rps == b.rps && f.burst == b.burst && f.tokens >= b.tokens
  {
    hide Earned;
    EarnedSign(b.rps, now - b.lastFill);
  }

  lemma {:induction false} ClockIsFill(b: Bucket, calls: seq<real>, n: nat)
    requires n < |calls|
    ensures Refilled(After(b, calls, n), calls[n]).lastFill == Clock(b, calls, n)
    ensures After(b, calls, n + 1).lastFill == Clock(b, calls, n)
    decreases n
  {
    if n > 0 { ClockIsFill(b, calls, n - 1); }
  }

  /** One call to the next: what was left, refilled, never above the burst. */
  lemma NextFound(b: Bucket, calls: seq<real>, n: nat)
    requires Valid(b) && n + 1 < |calls|
    ensures var left := Found(b, calls, n) - if Admitted(b, calls, n) then 1.0 else 0.0;
            var elapsed := Clock(b, calls, n + 1) - Clock(b, calls, n);
            Found(b, calls, n + 1) == Least(left + Earned(b.rps, elapsed), b.burst)
  {
    hide Earned;
    ClockIsFill(b, calls, n);
    AfterValid(b, calls, n);
    AfterValid(b, calls, n + 1);
    EarnedSign(b.rps, Clock(b, calls, n + 1) - Clock(b, calls, n));
  }

  lemma NextRoom(b: Bucket, calls: seq<real>, j: nat, n: nat)
    requires j <= n && n + 1 < |calls|
    ensures Room(b, calls, j, n + 1)
         == Room(b, calls, j, n) + Earned(b.rps, Clock(b, calls, n + 1) - Clock(b, calls, n))
            - (if Admitted(b, calls, n) then 1.0 else 0.0)
  {
    hide Earned, Clock, Admitted;
    var x, y, z := Clock(b, calls, n + 1), Clock(b, calls, n), Clock(b, calls, j);
    EarnedAdds(b.rps, x - y, y - z);
    assert (x - y) + (y - z) == x - z;
  }

  /** Tokens found are the least room over all windows ending at the call: the min-plus closed form. */
  lemma {:induction false} ClosedForm(b: Bucket, calls: seq<real>, n: nat) returns (tight: nat)
    requires Full(b) && n < |calls|
    ensures forall j :: 0 <= j <= n ==> Found(b, calls, n) <= Room(b, calls, j, n)
    ensures tight <= n && Found(b, calls, n) == Room(b, calls, tight, n)
    decreases n
  {
    hide Room, Found, Least, Earned, Admitted, Clock;
    if n == 0 {
      StartsFull(b, calls);
      tight := 0;
    } else {
      var t := ClosedForm(b, calls, n - 1);
      NextFound(b, calls, n - 1);
      EmptyWindow(b, calls, n);
      var change := Earned(b.rps, Clock(b, calls, n) - Clock(b, calls, n - 1))
                    - if Admitted(b, calls, n - 1) then 1.0 else 0.0;
      LeastBelow(Found(b, calls, n - 1) + change, b.burst);
      forall j | 0 <= j < n ensures Room(b, calls, j, n) == Room(b, calls, j, n - 1) + change {
        NextRoom(b, calls, j, n - 1);
      }
      tight := if Found(b, calls, n) == b.burst then n else t;
    }
  }

  lemma LeastBelow(x: real, y: real)
    ensures Least(x, y) <= x && Least(x, y) <= y && (Least(x, y) == x || Least(x, y) == y)
  {
  }

  lemma StartsFull(b: Bucket, calls: seq<real>)
    requires Full(b) && |calls| > 0
    ensures Found(b, calls, 0) == b.burst && Room(b, calls, 0, 0) == b.burst
  {
    RefilledValid(b, calls[0]);
    EmptyWindow(b, calls, 0);
  }

  lemma EmptyWindow(b: Bucket, calls: seq<real>, n: nat)
    requires n < |calls|
    ensures Room(b, calls, n, n) == b.burst
  {
    assert Earned(b.rps, 0.0) == 0.0;
  }

  /** A call passes exactly when every window ending with it still has room for one. */
  lemma AdmittedExactly(b: Bucket, calls: seq<real>, n: nat)
    requires Full(b) && n < |calls|
    ensures Admitted(b, calls, n) <==> forall j :: 0 <= j <= n ==> Room(b, calls, j, n) >= 1.0
  {
    hide Room;
    var tight := ClosedForm(b, calls, n);
  }

  /** No window, wherever it starts, lets through more than the burst plus its length times the rate. */
  lemma WindowBound(b: Bucket, calls: seq<real>, j: nat, n: nat)
    requires Full(b) && j <= n < |calls|
    ensures AdmittedIn(b, calls, j, n + 1) as real <= b.burst + Earned(b.rps, Clock(b, calls, n) - Clock(b, calls, j))
  {
    hide Earned, Clock;
    var tight := ClosedForm(b, calls, n);
    assert Found(b, calls, n) <= Room(b, calls, j, n);
    AfterValid(b, calls, n);
    RefilledValid(After(b, calls, n), calls[n]);
  }

  /** A call at least 1/rps after the last refill always passes. */
  lemma PassesAfterInterval(b: Bucket, calls: seq<real>, n: nat)
    requires Valid(b) && n < |calls|
    requires Earned(b.rps, calls[n] - After(b, calls, n).lastFill) >= 1.0
    ensures Admitted(b, calls, n)
  {
    hide Earned;
    AfterValid(b, calls, n);
    EarnedSign(b.rps, calls[n] - After(b, calls, n).lastFill);
  }

  /** So a client that keeps the interval is never limited. */
  lemma SteadyClientPasses(b: Bucket, calls: seq<real>, n: nat)
    requires Valid(b) && n < |calls| && Earned(b.rps, calls[0] - b.lastFill) >= 1.0
    requires forall i :: 0 < i < |calls| ==> Earned(b.rps, calls[i] - calls[i - 1]) >= 1.0
    ensures Admitted(b, calls, n) && Clock(b, calls, n) == calls[n]
    decreases n
  {
    hide Earned;
    if n > 0 {
      SteadyClientPasses(b, calls, n - 1);
      ClockIsFill(b, calls, n - 1);
      EarnedSign(b.rps, calls[n] - calls[n - 1]);
    } else {
      EarnedSign(b.rps, calls[0] - b.lastFill);
    }
    PassesAfterInterval(b, calls, n);
  }

  /** The bound on a window in plain terms: its length in seconds times the rate, plus the burst. */
  lemma WindowLimit(b: Bucket, calls: seq<real>, j: nat, n: nat)
    requires Full(b) && j <= n < |calls|
    ensures AdmittedIn(b, calls, j, n + 1) as real <= b.burst + (Clock(b, calls, n) - Clock(b, calls, j)) * b.rps
  {
    hide *;
    WindowBound(b, calls, j, n);
    EarnedIs(b.rps, Clock(b, calls, n) - Clock(b, calls, j));
  }

  // ---------- the limiter ----------

  const DEFAULT_RPS := 20.0

  class TokenBucketLimiter {
    var rps: real
    var burst: real
    var tokens: real
    var lastFill: real

    function State(): Bucket
      reads this
    {
      Bucket(rps, burst, tokens, lastFill)
    }

    /** Missing settings fall back to 20 a second and a burst of one second's worth, at least one. */
    constructor (rate: real, size: int, now: real)
      ensures Full(State()) && lastFill == now
      ensures rps == if rate <= 0.0 then 20.0 else rate
      ensures size > 0 ==> burst == size as real
      ensures size <= 0 ==> rps - 1.0 < burst <= rps || (rps < 1.0 && burst == 1.0)
    {
      var perSecond := if rate <= 0.0 then DEFAULT_RPS else rate;
      var depth := size;
      if depth <= 0 { depth := perSecond.Floor; }
      if depth <= 0 { depth := 1; }
      rps, burst, tokens, lastFill := perSecond, depth as real, depth as real, now;
    }

    method Allow(now: real) returns (ok: bool)
      modifies this
      ensures (State(), ok) == Allowed(old(State()), now)
    {
      var elapsed := now - lastFill;
      if elapsed > 0.0 {
        tokens := tokens + elapsed * rps;
        if tokens > burst { tokens := burst; }
        lastFill := now;
      }
      if tokens < 1.0 { return false; }
      tokens := tokens - 1.0;
      return true;
    }

    /** A series of calls, in the order the lock lets them in. */
    method AllowAll(calls: seq<real>) returns (answers: seq<bool>)
      modifies this
      ensures State() == After(old(State()), calls, |calls|)
      ensures |answers| == |calls| && forall n :: 0 <= n < |calls| ==> answers[n] == Admitted(old(State()), calls, n)
    {
      answers := [];
      for n := 0 to |calls|
        invariant |answers| == n && State() == After(old(State()), calls, n)
        invariant forall i :: 0 <= i < n ==> answers[i] == Admitted(old(State()), calls, i)
      {
        var ok := Allow(calls[n]);
        answers := answers + [ok];
      }
    }
  }
}
