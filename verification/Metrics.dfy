/**
  Metrics as section "Text format details" of the Prometheus text exposition
  format 0.0.4 wants them: cumulative histograms, a fixed order of output, and
  label values that read back as they were.
 */
module Metrics {
  import opened Keys
  import opened Model

  datatype RequestKey = RequestKey(httpMethod: string, path: string, status: string)

  datatype BusinessKey = BusinessKey(event: string, result: string)

  datatype BucketKey = BucketKey(request: RequestKey, le: string)

  datatype Bin = Bin(bound: real, le: string)

  const LATENCY_BINS: seq<Bin> :=
    [Bin(0.005, "0.005"), Bin(0.01, "0.01"), Bin(0.025, "0.025"), Bin(0.05, "0.05"), Bin(0.1, "0.1"), Bin(0.25, "0.25"),
     Bin(0.5, "0.5"), Bin(1.0, "1"), Bin(2.5, "2.5"), Bin(5.0, "5"), Bin(10.0, "10")]

  // ---------- what was observed ----------

  datatype Observation = Observation(key: RequestKey, seconds: real)

  function Total(seen: seq<Observation>, key: RequestKey): nat {
    if seen == [] then 0 else Total(seen[..|seen| - 1], key) + Bit(seen[|seen| - 1].key == key)
  }

  function Within(seen: seq<Observation>, key: RequestKey, bound: real): nat {
    if seen == [] then 0
    else Within(seen[..|seen| - 1], key, bound) + Bit(seen[|seen| - 1].key == key && seen[|seen| - 1].seconds <= bound)
  }

  function Elapsed(seen: seq<Observation>, key: RequestKey): real {
    if seen == [] then 0.0
    else Elapsed(seen[..|seen| - 1], key) + if seen[|seen| - 1].key == key then seen[|seen| - 1].seconds else 0.0
  }

  lemma {:induction false} BucketsGrow(seen: seq<Observation>, key: RequestKey, low: real, high: real)
    requires low <= high
    ensures Within(seen, key, low) <= Within(seen, key, high) <= Total(seen, key)
  {
    if seen != [] { BucketsGrow(seen[..|seen| - 1], key, low, high); }
  }

  function CountOf<K>(counts: map<K, nat>, k: K): nat {
    if k in counts then counts[k] else 0
  }

  /** Bins are distinct texts and grow. */
  lemma BinsApart(i: nat, j: nat)
    requires i < j < |LATENCY_BINS|
    ensures LATENCY_BINS[i].le != LATENCY_BINS[j].le && LATENCY_BINS[i].bound < LATENCY_BINS[j].bound
  {
    assert forall k :: 0 <= k < |LATENCY_BINS| ==> |LATENCY_BINS[k].le| >= 1;
    assert LATENCY_BINS[0].le[4] == '5' && LATENCY_BINS[2].le[3] == '2' && LATENCY_BINS[0].le[3] == '0';
    assert LATENCY_BINS[1].le[3] == '1' && LATENCY_BINS[3].le[3] == '5' && LATENCY_BINS[5].le[2] == '2';
    assert LATENCY_BINS[4].le[2] == '1' && LATENCY_BINS[6].le[2] == '5' && LATENCY_BINS[8].le[0] == '2';
    assert LATENCY_BINS[7].le[0] == '1' && LATENCY_BINS[9].le[0] == '5' && LATENCY_BINS[10].le[1] == '0';
  }

  function SumOf<K>(sums: map<K, real>, k: K): real {
    if k in sums then sums[k] else 0.0
  }

  /** The tables are what the observations say. */
  ghost predicate TablesFit(requests: map<RequestKey, nat>, sums: map<RequestKey, real>,
      buckets: map<BucketKey, nat>, seen: seq<Observation>)
  {
    && (forall key :: CountOf(requests, key) == Total(seen, key))
    && (forall key :: SumOf(sums, key) == Elapsed(seen, key))
    && (forall key, i :: 0 <= i < |LATENCY_BINS| ==>
          CountOf(buckets, BucketKey(key, LATENCY_BINS[i].le)) == Within(seen, key, LATENCY_BINS[i].bound))
  }

  // ---------- the store ----------

  datatype BucketLine = BucketLine(le: string, value: nat)

  class Store {
    var httpRequests: map<RequestKey, nat>
    var httpDurationSum: map<RequestKey, real>
    var httpDuration: map<BucketKey, nat>
    var businessEvents: map<BusinessKey, nat>
    ghost var seen: seq<Observation>

    ghost predicate Valid()
      reads this
    {
      TablesFit(httpRequests, httpDurationSum, httpDuration, seen)
    }

    constructor ()
      ensures Valid() && seen == [] && businessEvents == map[]
    {
      httpRequests, httpDurationSum, httpDuration, businessEvents, seen := map[], map[], map[], map[], [];
    }

    method ObserveHTTPRequest(httpMethod: string, path: string, status: nat, seconds: real)
      requires Valid()
      modifies this
      ensures Valid() && businessEvents == old(businessEvents)
      ensures seen == old(seen) + [Observation(RequestKey(httpMethod, path, Decimal(status)), seconds)]
    {
      hide TablesFit, Total, Within, Elapsed, BinDone;
      var key := RequestKey(httpMethod, path, Decimal(status));
      ghost var was, before := seen, httpDuration;
      httpRequests := httpRequests[key := CountOf(httpRequests, key) + 1];
      httpDurationSum := httpDurationSum[key := SumOf(httpDurationSum, key) + seconds];
      NoBinYet(before, key, seconds);
      for i := 0 to |LATENCY_BINS|
        invariant httpRequests == old(httpRequests)[key := CountOf(old(httpRequests), key) + 1]
        invariant httpDurationSum == old(httpDurationSum)[key := SumOf(old(httpDurationSum), key) + seconds]
        invariant businessEvents == old(businessEvents) && seen == was
        invariant BinsDone(before, httpDuration, key, seconds, i)
      {
        var bucket := BucketKey(key, LATENCY_BINS[i].le);
        BinsStep(before, httpDuration, key, seconds, i);
        if seconds <= LATENCY_BINS[i].bound {
          httpDuration := httpDuration[bucket := CountOf(httpDuration, bucket) + 1];
        }
      }
      TablesFitAfter(old(httpRequests), old(httpDurationSum), before, httpDuration, was, key, seconds);
      seen := seen + [Observation(key, seconds)];
    }

    method IncBusinessEvent(event: string, result: string)
      modifies this`businessEvents
      ensures forall k ::
        CountOf(businessEvents, k) == CountOf(old(businessEvents), k) + Bit(k == BusinessKey(event, result))
    {
      var key := BusinessKey(event, result);
      businessEvents := businessEvents[key := CountOf(businessEvents, key) + 1];
    }

    /**
      The histogram lines of one key: each bucket is the number of samples within
      its bound, buckets never shrink, `+Inf` equals the count, and the sum is the
      time of all samples.
     */
    method RenderHistogram(key: RequestKey) returns (lines: seq<BucketLine>, sum: real, count: nat)
      requires Valid()
      ensures |lines| == |LATENCY_BINS| + 1 && count == Total(seen, key) && sum == Elapsed(seen, key)
      ensures forall i :: 0 <= i < |LATENCY_BINS| ==>
        lines[i] == BucketLine(LATENCY_BINS[i].le, Within(seen, key, LATENCY_BINS[i].bound))
      ensures lines[|LATENCY_BINS|] == BucketLine("+Inf", count)
      ensures forall i, j :: 0 <= i < j < |lines| ==> lines[i].value <= lines[j].value
    {
      lines := [];
      for i := 0 to |LATENCY_BINS|
        invariant |lines| == i
        invariant forall k :: 0 <= k < i ==>
          lines[k] == BucketLine(LATENCY_BINS[k].le, Within(seen, key, LATENCY_BINS[k].bound))
      {
        var le := LATENCY_BINS[i].le;
        lines := lines + [BucketLine(le, CountOf(httpDuration, BucketKey(key, le)))];
      }
      sum := SumOf(httpDurationSum, key);
      count := CountOf(httpRequests, key);
      lines := lines + [BucketLine("+Inf", count)];
      forall i, j | 0 <= i < j < |lines| ensures lines[i].value <= lines[j].value {
        if j < |LATENCY_BINS| { BinsApart(i, j); }
        BucketsGrow(seen, key, LATENCY_BINS[i].bound,
                    if j < |LATENCY_BINS| then LATENCY_BINS[j].bound else LATENCY_BINS[i].bound);
      }
    }
  }

  lemma OneMoreObservation(seen: seq<Observation>, o: Observation)
    ensures forall key :: Total(seen + [o], key) == Total(seen, key) + Bit(o.key == key)
    ensures forall key :: Elapsed(seen + [o], key) == Elapsed(seen, key) + if o.key == key then o.seconds else 0.0
    ensures forall key, bound ::
      Within(seen + [o], key, bound) == Within(seen, key, bound) + Bit(o.key == key && o.seconds <= bound)
  {
    assert (seen + [o])[..|seen|] == seen;
  }

  lemma TablesFitAfter(requests: map<RequestKey, nat>, sums: map<RequestKey, real>, before: map<BucketKey, nat>,
      after: map<BucketKey, nat>, seen: seq<Observation>, key: RequestKey, seconds: real)
    requires TablesFit(requests, sums, before, seen) && BinsDone(before, after, key, seconds, |LATENCY_BINS|)
    ensures TablesFit(requests[key := CountOf(requests, key) + 1], sums[key := SumOf(sums, key) + seconds], after,
                      seen + [Observation(key, seconds)])
  {
    hide Total, Within, Elapsed;
    OneMoreObservation(seen, Observation(key, seconds));
    var seen' := seen + [Observation(key, seconds)];
    forall k, i | 0 <= i < |LATENCY_BINS|
      ensures CountOf(after, BucketKey(k, LATENCY_BINS[i].le)) == Within(seen', k, LATENCY_BINS[i].bound)
    {
      assert BinDone(before, after, key, seconds, |LATENCY_BINS|, k, i);
      assert CountOf(before, BucketKey(k, LATENCY_BINS[i].le)) == Within(seen, k, LATENCY_BINS[i].bound);
    }
  }

  /** The first `n` bins have counted the sample. */
  ghost predicate BinsDone(before: map<BucketKey, nat>, after: map<BucketKey, nat>, key: RequestKey,
      seconds: real, n: nat)
  {
    forall k, i :: 0 <= i < |LATENCY_BINS| ==> BinDone(before, after, key, seconds, n, k, i)
  }

  ghost predicate BinDone(before: map<BucketKey, nat>, after: map<BucketKey, nat>, key: RequestKey,
      seconds: real, n: nat, k: RequestKey, i: nat)
    requires i < |LATENCY_BINS|
  {
    var bucket := BucketKey(k, LATENCY_BINS[i].le);
    CountOf(after, bucket) == CountOf(before, bucket) + Bit(i < n && k == key && seconds <= LATENCY_BINS[i].bound)
  }

  lemma NoBinYet(before: map<BucketKey, nat>, key: RequestKey, seconds: real)
    ensures BinsDone(before, before, key, seconds, 0)
  {
  }

  lemma BinsStep(before: map<BucketKey, nat>, after: map<BucketKey, nat>, key: RequestKey, seconds: real, n: nat)
    requires n < |LATENCY_BINS| && BinsDone(before, after, key, seconds, n)
    ensures var bucket := BucketKey(key, LATENCY_BINS[n].le);
            BinsDone(before,
                     if seconds <= LATENCY_BINS[n].bound then after[bucket := CountOf(after, bucket) + 1] else after,
                     key, seconds, n + 1)
  {
    var bucket := BucketKey(key, LATENCY_BINS[n].le);
    var after' := if seconds <= LATENCY_BINS[n].bound then after[bucket := CountOf(after, bucket) + 1] else after;
    var next := n + 1;
    forall k, i | 0 <= i < |LATENCY_BINS| ensures BinDone(before, after', key, seconds, next, k, i) {
      if i < n { BinsApart(i, n); } else if n < i { BinsApart(n, i); }
      assert BinDone(before, after, key, seconds, n, k, i);
    }
  }

  // ---------- the order of output ----------

  predicate TextLess(a: string, b: string) {
    b != "" && (a == "" || a[0] < b[0] || (a[0] == b[0] && TextLess(a[1..], b[1..])))
  }

  lemma {:induction false} TextOrder(a: string, b: string, c: string)
    ensures !TextLess(a, a)
    ensures TextLess(a, b) || a == b || TextLess(b, a)
    ensures TextLess(a, b) && TextLess(b, c) ==> TextLess(a, c)
    decreases |a| + |b| + |c|
  {
    var ta, tb, tc := if a == "" then "" else a[1..], if b == "" then "" else b[1..], if c == "" then "" else c[1..];
    if a != "" || b != "" || c != "" { TextOrder(ta, tb, tc); }
    if a != "" && b != "" && a[0] == b[0] && ta == tb {
      assert a == [a[0]] + ta && b == [b[0]] + tb;
    }
  }

  /** The first character in which two texts differ decides, and a text comes before its extensions. */
  lemma {:induction false} FirstDifference(a: string, b: string, i: nat)
    requires i <= |a| && i <= |b| && a[..i] == b[..i]
    ensures i < |a| && i < |b| && a[i] != b[i] ==> (TextLess(a, b) <==> a[i] < b[i])
    ensures i == |a| < |b| ==> TextLess(a, b)
  {
    if i > 0 {
      assert a[..i][0] == a[0] && b[..i][0] == b[0];
      assert a[1..][..i - 1] == a[..i][1..] && b[1..][..i - 1] == b[..i][1..];
      FirstDifference(a[1..], b[1..], i - 1);
    }
  }

  /** Path, then method, then status. */
  predicate KeyLess(a: RequestKey, b: RequestKey) {
    if a.path != b.path then TextLess(a.path, b.path)
    else if a.httpMethod != b.httpMethod then TextLess(a.httpMethod, b.httpMethod)
    else TextLess(a.status, b.status)
  }

  /** Keys go by path first, those of one path by method, those of one path and method by status. */
  lemma KeysGoBy(a: RequestKey, b: RequestKey)
    ensures a.path != b.path ==> (KeyLess(a, b) <==> TextLess(a.path, b.path))
    ensures a.path == b.path && a.httpMethod != b.httpMethod ==>
      (KeyLess(a, b) <==> TextLess(a.httpMethod, b.httpMethod))
    ensures a.path == b.path && a.httpMethod == b.httpMethod ==> (KeyLess(a, b) <==> TextLess(a.status, b.status))
  {
  }

  lemma KeyOrder(a: RequestKey, b: RequestKey, c: RequestKey)
    ensures !KeyLess(a, a)
    ensures KeyLess(a, b) || a == b || KeyLess(b, a)
    ensures KeyLess(a, b) && KeyLess(b, c) ==> KeyLess(a, c)
  {
    TextOrder(a.path, b.path, c.path);
    TextOrder(a.httpMethod, b.httpMethod, c.httpMethod);
    TextOrder(a.status, b.status, c.status);
    TextOrder(b.path, a.path, b.path);
    TextOrder(b.httpMethod, a.httpMethod, b.httpMethod);
    TextOrder(b.status, a.status, b.status);
  }

  lemma {:induction false} FirstKeyExists(keys: set<RequestKey>)
    requires keys != {}
    ensures exists k :: k in keys && forall o :: o in keys ==> o == k || KeyLess(k, o)
    decreases |keys|
  {
    hide KeyLess;
    var k :| k in keys;
    var rest := keys - {k};
    assert forall o :: o in keys ==> o == k || o in rest;
    if rest == {} {
      assert k in keys && forall o :: o in keys ==> o == k || KeyLess(k, o);
    } else {
      FirstKeyExists(rest);
      var f :| f in rest && forall o :: o in rest ==> o == f || KeyLess(f, o);
      KeyOrder(k, f, f);
      var first := if KeyLess(k, f) then k else f;
      forall o | o in keys ensures o == first || KeyLess(first, o) {
        KeyOrder(k, f, o);
      }
    }
  }

  ghost predicate InOrder(keys: seq<RequestKey>) {
    forall i, j :: 0 <= i < j < |keys| ==> KeyLess(keys[i], keys[j])
  }

  method SortedRequestKeys(values: map<RequestKey, nat>) returns (keys: seq<RequestKey>)
    ensures InOrder(keys) && forall k :: k in keys <==> k in values
  {
    hide KeyLess;
    keys := [];
    var left := values.Keys;
    while left != {}
      invariant left <= values.Keys && InOrder(keys)
      invariant forall k :: k in keys <==> k in values && k !in left
      invariant forall k, o :: k in keys && o in left ==> KeyLess(k, o)
      decreases |left|
    {
      FirstKeyExists(left);
      var f :| f in left && forall o :: o in left ==> o == f || KeyLess(f, o);
      left := left - {f};
      keys := keys + [f];
    }
  }

  /** The order of output is a function of the keys: map iteration order never shows. */
  lemma {:induction false} OrderIsUnique(s: seq<RequestKey>, t: seq<RequestKey>)
    requires InOrder(s) && InOrder(t) && forall k :: k in s <==> k in t
    ensures s == t
    decreases |s|
  {
    hide KeyLess;
    assert t != [] ==> t[0] in t;
    if s == [] {
    } else {
      assert s[0] in t;
      assert t[0] in s;
      var i :| 0 <= i < |t| && t[i] == s[0];
      var j :| 0 <= j < |s| && s[j] == t[0];
      KeyOrder(s[0], t[0], s[0]);
      assert s[0] == t[0];
      forall k ensures k in s[1..] <==> k in t[1..] {
        KeyOrder(k, k, k);
        if k in s[1..] { assert k in t; }
        if k in t[1..] { assert k in s; }
      }
      OrderIsUnique(s[1..], t[1..]);
    }
  }

  // ---------- label values ----------

  function ReplaceAll(s: string, c: char, into: string): string {
    if s == "" then "" else (if s[0] == c then into else [s[0]]) + ReplaceAll(s[1..], c, into)
  }

  /** Three passes: backslashes first, then line feeds, then quotes. */
  function EscapeLabel(s: string): string {
    ReplaceAll(ReplaceAll(ReplaceAll(s, '\\', "\\\\"), '\n', "\\n"), '\"', "\\\"")
  }

  function LabelValue(s: string): string {
    "\"" + EscapeLabel(s) + "\""
  }

  function EscapeChar(c: char): string {
    if c == '\\' then "\\\\" else if c == '\n' then "\\n" else if c == '\"' then "\\\"" else [c]
  }

  function EscapeOnce(s: string): string {
    if s == "" then "" else EscapeChar(s[0]) + EscapeOnce(s[1..])
  }

  lemma {:induction false} ReplaceAppend(s: string, t: string, c: char, into: string)
    ensures ReplaceAll(s + t, c, into) == ReplaceAll(s, c, into) + ReplaceAll(t, c, into)
  {
    if s == "" {
      assert s + t == t;
    } else {
      assert (s + t)[1..] == s[1..] + t;
      ReplaceAppend(s[1..], t, c, into);
    }
  }

  lemma ReplaceOne(x: char, c: char, into: string)
    ensures ReplaceAll([x], c, into) == if x == c then into else [x]
  {
    assert ReplaceAll([x][1..], c, into) == "";
  }

  lemma EscapeOne(c: char)
    ensures EscapeLabel([c]) == EscapeChar(c)
  {
    ReplaceOne(c, '\\', "\\\\");
    var first := ReplaceAll([c], '\\', "\\\\");
    if c == '\\' {
      assert first == ['\\'] + ['\\'];
      ReplaceAppend(['\\'], ['\\'], '\n', "\\n");
      ReplaceOne('\\', '\n', "\\n");
      ReplaceAppend(['\\'], ['\\'], '\"', "\\\"");
      ReplaceOne('\\', '\"', "\\\"");
    } else {
      ReplaceOne(c, '\n', "\\n");
      if c == '\n' {
        assert "\\n" == ['\\'] + ['n'];
        ReplaceAppend(['\\'], ['n'], '\"', "\\\"");
        ReplaceOne('\\', '\"', "\\\"");
        ReplaceOne('n', '\"', "\\\"");
      } else {
        ReplaceOne(c, '\"', "\\\"");
      }
    }
  }

  /** The three passes do not disturb each other: they are one pass, character by character. */
  lemma {:induction false} EscapeIsOnePass(s: string)
    ensures EscapeLabel(s) == EscapeOnce(s)
  {
    if s != "" {
      hide ReplaceAll, EscapeChar;
      assert s == [s[0]] + s[1..];
      var head, tail := [s[0]], s[1..];
      ReplaceAppend(head, tail, '\\', "\\\\");
      var h1, t1 := ReplaceAll(head, '\\', "\\\\"), ReplaceAll(tail, '\\', "\\\\");
      ReplaceAppend(h1, t1, '\n', "\\n");
      ReplaceAppend(ReplaceAll(h1, '\n', "\\n"), ReplaceAll(t1, '\n', "\\n"), '\"', "\\\"");
      EscapeOne(s[0]);
      EscapeIsOnePass(tail);
    } else {
      assert ReplaceAll("", '\\', "\\\\") == "";
    }
  }

  /** How a scraper reads a label value after its opening quote: the value and the text after the closing quote. */
  function ReadValue(text: string): Option<(string, string)> {
    if text == "" then None
    else if text[0] == '\"' then Some(("", text[1..]))
    else if text[0] != '\\' then Prepend(text[0], ReadValue(text[1..]))
    else if |text| < 2 then None
    else if text[1] == '\\' then Prepend('\\', ReadValue(text[2..]))
    else if text[1] == 'n' then Prepend('\n', ReadValue(text[2..]))
    else if text[1] == '\"' then Prepend('\"', ReadValue(text[2..]))
    else None
  }

  function Prepend(c: char, r: Option<(string, string)>): Option<(string, string)> {
    match r
    case None => None
    case Some((value, rest)) => Some(([c] + value, rest))
  }

  lemma ReadsOne(c: char, tail: string)
    ensures ReadValue(EscapeChar(c) + tail) == Prepend(c, ReadValue(tail))
    ensures '\n' !in EscapeChar(c)
  {
    var text := EscapeChar(c) + tail;
    if |EscapeChar(c)| == 2 {
      assert text[2..] == tail;
    } else {
      assert text[1..] == tail;
    }
  }

  lemma ReadsEnd(rest: string)
    ensures ReadValue("\"" + rest) == Some(("", rest))
  {
    assert ("\"" + rest)[1..] == rest;
  }

  lemma {:induction false} ReadsEscaped(s: string, rest: string)
    ensures ReadValue(EscapeOnce(s) + "\"" + rest) == Some((s, rest))
    ensures '\n' !in EscapeOnce(s)
  {
    hide ReadValue, EscapeChar;
    if s == "" {
      assert EscapeOnce(s) + "\"" + rest == "\"" + rest;
      ReadsEnd(rest);
    } else {
      var tail := EscapeOnce(s[1..]) + "\"" + rest;
      ReadsEscaped(s[1..], rest);
      ReadsOne(s[0], tail);
      assert EscapeOnce(s) + "\"" + rest == EscapeChar(s[0]) + tail;
      assert s == [s[0]] + s[1..];
    }
  }

  /**
    A scraper reads back the value that was put in, whatever follows on the line:
    no raw line feed and no bare quote is left inside, and distinct values stay distinct.
   */
  lemma LabelReadsBack(s: string, t: string, rest: string)
    ensures ReadValue((LabelValue(s) + rest)[1..]) == Some((s, rest))
    ensures '\n' !in LabelValue(s)
    ensures LabelValue(s) == LabelValue(t) ==> s == t
  {
    hide EscapeOnce, EscapeLabel, ReadValue;
    EscapeIsOnePass(s);
    EscapeIsOnePass(t);
    ReadsEscaped(s, rest);
    ReadsEscaped(t, rest);
    assert (LabelValue(s) + rest)[1..] == EscapeOnce(s) + "\"" + rest;
    assert (LabelValue(t) + rest)[1..] == EscapeOnce(t) + "\"" + rest;
  }
}
