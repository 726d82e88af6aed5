/**
  Order tasks on RabbitMQ: acknowledgements, retries and dead letters, with
  workers that may crash between a publish and the acknowledgement.
 */
module RetryQueue {
  import opened Keys
  import opened Model
  import opened Ledger
  import opened Lifecycle
  import opened Clients

  // ---------- messages ----------

  datatype Message = Message(orderNo: OrderNo, retry: int)

  /** What JSON decoding finds in a body, and the body itself with surrounding space trimmed. */
  datatype Body = Body(parsed: Option<Message>, text: string)

  function Decode(body: Body): Result<Message> {
    if body.parsed.Some? && body.parsed.value.orderNo != "" then
      Ok(if body.parsed.value.retry < 0 then body.parsed.value.(retry := 0) else body.parsed.value)
    else if body.text == "" then Err(InvalidInput)
    else Ok(Message(body.text, 0))
  }

  /** `text` stands for the encoded JSON, which is never empty. */
  function Encode(m: Message): Result<Body> {
    if m.orderNo == "" then Err(InvalidInput) else Ok(Body(Some(m), "{}"))
  }

  /**
    What a body is read as: a record with an order number, its negative retry
    count as zero; else its text as the order number of a new task; else nothing.
   */
  lemma DecodeReads(body: Body)
    ensures var record := body.parsed.Some? && body.parsed.value.orderNo != "";
            && (Decode(body).Err? <==> !record && body.text == "")
            && (record ==>
                  && Decode(body).value.orderNo == body.parsed.value.orderNo
                  && Decode(body).value.retry == if body.parsed.value.retry > 0 then body.parsed.value.retry else 0)
            && (!record && body.text != "" ==> Decode(body).value == Message(body.text, 0))
  {
  }

  /** A message survives the codec, with a negative retry count read as zero; only empty order numbers are refused. */
  lemma CodecRoundTrip(m: Message)
    ensures Encode(m).Err? <==> m.orderNo == ""
    ensures Encode(m).Ok? ==> Decode(Encode(m).value) == Ok(m.(retry := if m.retry < 0 then 0 else m.retry))
  {
  }

  lemma DecodedIsValid(body: Body)
    ensures Decode(body).Ok? ==> Decode(body).value.orderNo != "" && Decode(body).value.retry >= 0
  {
  }

  // ---------- the queue ----------

  /** One copy of a message; `lineage` tells which first publish it comes from. */
  datatype Copy = Copy(lineage: nat, body: Body)

  datatype Queue = Queue(
    ready: seq<Copy>, unacked: seq<Copy>, done: seq<Copy>, dead: seq<Copy>, lineages: nat, max: nat, db: Db)

  datatype Step =
    | Publish(body: Body)
    | Deliver(i: nat)
    | Reject(i: nat)
    | Complete(i: nat, acked: bool)
    | Retry(i: nat, acked: bool)
    | Bury(i: nat, acked: bool)
    | Requeue(i: nat)
    | Elsewhere(ds: DbStep)

  predicate Decodable(c: Copy) {
    Decode(c.body).Ok?
  }

  function MessageOf(c: Copy): Message
    requires Decodable(c)
  {
    Decode(c.body).value
  }

  function WithRetry(c: Copy): Copy
    requires Decodable(c)
  {
    var m := MessageOf(c);
    c.(body := Body(Some(m.(retry := m.retry + 1)), "{}"))
  }

  function Without<T>(s: seq<T>, i: nat): seq<T>
    requires i < |s|
  {
    s[..i] + s[i + 1..]
  }

  predicate Enabled(q: Queue, st: Step) {
    match st
    case Publish(_) => true
    case Deliver(i) => i < |q.ready|
    case Reject(i) => i < |q.unacked| && !Decodable(q.unacked[i])
    case Complete(i, _) =>
      i < |q.unacked| && Decodable(q.unacked[i]) && Process(q.db, MessageOf(q.unacked[i]).orderNo).Commit?
    case Retry(i, _) => i < |q.unacked| && Decodable(q.unacked[i]) && MessageOf(q.unacked[i]).retry < q.max
    case Bury(i, _) => i < |q.unacked| && Decodable(q.unacked[i]) && MessageOf(q.unacked[i]).retry >= q.max
    case Requeue(i) => i < |q.unacked|
    case Elsewhere(_) => true
  }

  /** Acknowledged copies leave the queue; unacknowledged ones go back to it. */
  function Settled(q: Queue, i: nat, acked: bool): Queue
    requires i < |q.unacked|
  {
    var q' := q.(unacked := Without(q.unacked, i));
    if acked then q' else q'.(ready := [q.unacked[i]] + q'.ready)
  }

  function Next(q: Queue, st: Step): Queue {
    if !Enabled(q, st) then q
    else
      match st
      case Publish(body) => q.(ready := q.ready + [Copy(q.lineages, body)], lineages := q.lineages + 1)
      case Deliver(i) => q.(ready := Without(q.ready, i), unacked := q.unacked + [q.ready[i]])
      case Reject(i) => Settled(q, i, true)
      case Complete(i, acked) =>
        var q' := Settled(q, i, acked).(db := DbNext(q.db, ProcessOrder(MessageOf(q.unacked[i]).orderNo)));
        if acked then q'.(done := q.done + [q.unacked[i]]) else q'
      case Retry(i, acked) =>
        var q' := Settled(q, i, acked);
        q'.(ready := q'.ready + [WithRetry(q.unacked[i])])
      case Bury(i, acked) => Settled(q, i, acked).(dead := q.dead + [q.unacked[i]])
      case Requeue(i) => Settled(q, i, false)
      case Elsewhere(ds) => q.(db := DbNext(q.db, ds))
  }

  function Exec(q: Queue, steps: seq<Step>): Queue
    decreases |steps|
  {
    if steps == [] then q else Exec(Next(q, steps[0]), steps[1..])
  }

  // ---------- sums over copies ----------

  function SumOver(s: seq<Copy>, f: Copy -> nat): nat {
    if s == [] then 0 else f(s[0]) + SumOver(s[1..], f)
  }

  lemma {:induction false} SumAppend(s: seq<Copy>, t: seq<Copy>, f: Copy -> nat)
    ensures SumOver(s + t, f) == SumOver(s, f) + SumOver(t, f)
  {
    if s == [] {
      assert s + t == t;
    } else {
      assert (s + t)[1..] == s[1..] + t;
      SumAppend(s[1..], t, f);
    }
  }

  lemma SumOne(c: Copy, f: Copy -> nat)
    ensures SumOver([c], f) == f(c)
  {
  }

  lemma SumWithout(s: seq<Copy>, i: nat, f: Copy -> nat)
    requires i < |s|
    ensures SumOver(s, f) == f(s[i]) + SumOver(Without(s, i), f)
  {
    hide SumOver;
    var head, tail := s[..i], s[i + 1..];
    assert s == head + ([s[i]] + tail);
    SumAppend(head, [s[i]] + tail, f);
    SumAppend([s[i]], tail, f);
    SumOne(s[i], f);
    SumAppend(head, tail, f);
  }

  function Pending(q: Queue, f: Copy -> nat): nat {
    SumOver(q.ready, f) + SumOver(q.unacked, f)
  }

  function Everywhere(q: Queue, f: Copy -> nat): nat {
    Pending(q, f) + SumOver(q.done, f) + SumOver(q.dead, f)
  }

  /** The copy a step works on, if any. */
  function Subject(q: Queue, st: Step): Copy {
    match st
    case Publish(body) => Copy(q.lineages, body)
    case Deliver(i) => if i < |q.ready| then q.ready[i] else Copy(0, Body(None, ""))
    case Reject(i) => At(q, i)
    case Complete(i, _) => At(q, i)
    case Retry(i, _) => At(q, i)
    case Bury(i, _) => At(q, i)
    case Requeue(i) => At(q, i)
    case Elsewhere(_) => Copy(0, Body(None, ""))
  }

  function At(q: Queue, i: nat): Copy {
    if i < |q.unacked| then q.unacked[i] else Copy(0, Body(None, ""))
  }

  /** What each step does to a sum over the pending copies and to a sum over all of them. */
  lemma StepSums(q: Queue, st: Step, f: Copy -> nat)
    requires Enabled(q, st)
    ensures var c := Subject(q, st);
            var p, p', e, e' := Pending(q, f), Pending(Next(q, st), f), Everywhere(q, f), Everywhere(Next(q, st), f);
            match st
            case Publish(_) => p' == p + f(c) && e' == e + f(c)
            case Deliver(_) => p' == p && e' == e
            case Reject(_) => p' + f(c) == p && e' + f(c) == e
            case Complete(_, acked) => if acked then p' + f(c) == p && e' == e else p' == p && e' == e
            case Retry(_, acked) =>
              Decodable(c) && (if acked then p' + f(c) == p + f(WithRetry(c)) && e' + f(c) == e + f(WithRetry(c))
                               else p' == p + f(WithRetry(c)) && e' == e + f(WithRetry(c)))
            case Bury(_, acked) => if acked then p' + f(c) == p && e' == e else p' == p && e' == e + f(c)
            case Requeue(_) => p' == p && e' == e
            case Elsewhere(_) => p' == p && e' == e
  {
    hide DbNext, Decode, WithRetry, SumOver, Without, Process;
    var c := Subject(q, st);
    SumOne(c, f);
    match st
    case Publish(_) => SumAppend(q.ready, [c], f);
    case Deliver(i) => SumWithout(q.ready, i, f); SumAppend(q.unacked, [c], f);
    case Elsewhere(_) =>
    case Retry(i, _) =>
      SumWithout(q.unacked, i, f);
      SumAppend([c], q.ready, f);
      SumOne(WithRetry(c), f);
      SumAppend(q.ready, [WithRetry(c)], f);
      SumAppend([c] + q.ready, [WithRetry(c)], f);
    case _ =>
      SumWithout(q.unacked, st.i, f);
      SumAppend([c], q.ready, f);
      SumAppend(q.done, [c], f);
      SumAppend(q.dead, [c], f);
  }

  // ---------- survival ----------

  /** Copies of one lineage that can be decoded. */
  function Alive(l: nat): Copy -> nat {
    (c: Copy) => Bit(c.lineage == l && Decodable(c))
  }

  /** The step publishes a decodable message as lineage `l`. */
  predicate Founds(q: Queue, st: Step, l: nat) {
    st.Publish? && q.lineages == l && Decode(st.body).Ok?
  }

  /** The worker published a second copy and crashed before the acknowledgement. */
  predicate Doubles(q: Queue, st: Step, l: nat) {
    Enabled(q, st) && ((st.Retry? && !st.acked) || (st.Bury? && !st.acked)) && Subject(q, st).lineage == l
  }

  function Founded(q: Queue, steps: seq<Step>, l: nat): nat
    decreases |steps|
  {
    if steps == [] then 0 else Bit(Founds(q, steps[0], l)) + Founded(Next(q, steps[0]), steps[1..], l)
  }

  function Doubled(q: Queue, steps: seq<Step>, l: nat): nat
    decreases |steps|
  {
    if steps == [] then 0 else Bit(Doubles(q, steps[0], l)) + Doubled(Next(q, steps[0]), steps[1..], l)
  }

  lemma StepAlive(q: Queue, st: Step, l: nat)
    ensures Everywhere(Next(q, st), Alive(l))
      == Everywhere(q, Alive(l)) + Bit(Founds(q, st, l)) + Bit(Doubles(q, st, l))
  {
    hide Everywhere, Next, Process;
    if Enabled(q, st) {
      StepSums(q, st, Alive(l));
    } else {
      Disabled(q, st);
    }
  }

  lemma Disabled(q: Queue, st: Step)
    requires !Enabled(q, st)
    ensures Next(q, st) == q
  {
  }

  /**
    Conservation over every run with crashes: the decodable copies of a lineage,
    ready, unacknowledged, completed or dead, are those there were, plus its
    publish, plus one for each crash after a republish. None is ever lost.
   */
  lemma {:induction false} CopiesConserved(q: Queue, steps: seq<Step>, l: nat)
    ensures Everywhere(Exec(q, steps), Alive(l))
      == Everywhere(q, Alive(l)) + Founded(q, steps, l) + Doubled(q, steps, l)
    decreases |steps|
  {
    hide Everywhere, Next, Founds, Doubles;
    if steps == [] {
    } else {
      StepAlive(q, steps[0], l);
      CopiesConserved(Next(q, steps[0]), steps[1..], l);
    }
  }

  lemma {:induction false} SomeCopy(s: seq<Copy>, l: nat)
    ensures SumOver(s, Alive(l)) > 0 <==> exists i :: 0 <= i < |s| && s[i].lineage == l && Decodable(s[i])
  {
    if s != [] {
      SomeCopy(s[1..], l);
      if SumOver(s, Alive(l)) > 0 && !(s[0].lineage == l && Decodable(s[0])) {
        var i :| 0 <= i < |s[1..]| && s[1..][i].lineage == l && Decodable(s[1..][i]);
        assert s[i + 1] == s[1..][i];
      }
      if i :| 0 <= i < |s| && s[i].lineage == l && Decodable(s[i]) {
        if i > 0 { assert s[1..][i - 1] == s[i]; }
      }
    }
  }

  ghost predicate HasCopy(s: seq<Copy>, l: nat) {
    exists i :: 0 <= i < |s| && s[i].lineage == l && Decodable(s[i])
  }

  /** A decodable message, once published, has a copy in the queue, with a worker, completed or dead, forever. */
  lemma NeverLost(q: Queue, body: Body, steps: seq<Step>)
    requires Decode(body).Ok?
    ensures var end := Exec(Next(q, Publish(body)), steps);
            HasCopy(end.ready, q.lineages) || HasCopy(end.unacked, q.lineages)
            || HasCopy(end.done, q.lineages) || HasCopy(end.dead, q.lineages)
  {
    hide Next, Exec, SumOver, Alive;
    var q1 := Next(q, Publish(body));
    var end := Exec(q1, steps);
    StepAlive(q, Publish(body), q.lineages);
    CopiesConserved(q1, steps, q.lineages);
    SomeCopy(end.ready, q.lineages);
    SomeCopy(end.unacked, q.lineages);
    SomeCopy(end.done, q.lineages);
    SomeCopy(end.dead, q.lineages);
  }

  // ---------- termination ----------

  /** Attempts a copy has left; a copy beyond the limit still has its burial to come. */
  function AttemptsLeft(max: nat, c: Copy): nat {
    if Decodable(c) && MessageOf(c).retry <= max then max + 1 - MessageOf(c).retry else 1
  }

  function Load(max: nat): Copy -> nat {
    (c: Copy) => AttemptsLeft(max, c)
  }

  function LineLoad(max: nat, l: nat): Copy -> nat {
    (c: Copy) => if c.lineage == l then AttemptsLeft(max, c) else 0
  }

  /** A worker got rid of its copy: rejected, completed, retried or buried, and acknowledged. */
  predicate Settles(q: Queue, st: Step) {
    Enabled(q, st) && (st.Reject? || (st.Complete? && st.acked) || (st.Retry? && st.acked) || (st.Bury? && st.acked))
  }

  /** A failed attempt whose retry or burial succeeded. */
  predicate FailsOver(q: Queue, st: Step, l: nat) {
    Enabled(q, st) && ((st.Retry? && st.acked) || (st.Bury? && st.acked)) && Subject(q, st).lineage == l
  }

  /** A copy that went back to the queue after its retry was published: it may try again what the retry will try. */
  predicate Respawns(q: Queue, st: Step) {
    Enabled(q, st) && st.Retry? && !st.acked
  }

  /** The attempts the step gives away a second time. */
  function Extra(q: Queue, st: Step, f: Copy -> nat): nat {
    if Respawns(q, st) then f(WithRetry(Subject(q, st))) else 0
  }

  function Extras(q: Queue, steps: seq<Step>, f: Copy -> nat): nat
    decreases |steps|
  {
    if steps == [] then 0 else Extra(q, steps[0], f) + Extras(Next(q, steps[0]), steps[1..], f)
  }

  /** The attempts a publish puts in. */
  function Given(q: Queue, st: Step, f: Copy -> nat): nat {
    if st.Publish? then f(Subject(q, st)) else 0
  }

  function Published(q: Queue, steps: seq<Step>, f: Copy -> nat): nat
    decreases |steps|
  {
    if steps == [] then 0 else Given(q, steps[0], f) + Published(Next(q, steps[0]), steps[1..], f)
  }

  /** The attempts of a copy that leaves the queue without failing over: completed or rejected, and acknowledged. */
  function Unused(q: Queue, st: Step, f: Copy -> nat): nat {
    if Enabled(q, st) && (st.Reject? || (st.Complete? && st.acked)) then f(Subject(q, st)) else 0
  }

  function UnusedIn(q: Queue, steps: seq<Step>, f: Copy -> nat): nat
    decreases |steps|
  {
    if steps == [] then 0 else Unused(q, steps[0], f) + UnusedIn(Next(q, steps[0]), steps[1..], f)
  }

  function SettleCount(q: Queue, steps: seq<Step>): nat
    decreases |steps|
  {
    if steps == [] then 0 else Bit(Settles(q, steps[0])) + SettleCount(Next(q, steps[0]), steps[1..])
  }

  function FailCount(q: Queue, steps: seq<Step>, l: nat): nat
    decreases |steps|
  {
    if steps == [] then 0 else Bit(FailsOver(q, steps[0], l)) + FailCount(Next(q, steps[0]), steps[1..], l)
  }

  lemma RetryCosts(max: nat, c: Copy)
    requires Decodable(c) && MessageOf(c).retry < max
    ensures Decodable(WithRetry(c)) && AttemptsLeft(max, WithRetry(c)) == AttemptsLeft(max, c) - 1
    ensures MessageOf(WithRetry(c)) == MessageOf(c).(retry := MessageOf(c).retry + 1)
  {
    DecodedIsValid(c.body);
  }

  /**
    Every settled delivery makes the load strictly smaller; only a publish and a
    retry whose delivery comes back make it larger, by what they give away.
   */
  lemma SettleShrinks(q: Queue, st: Step)
    ensures Pending(Next(q, st), Load(q.max)) + Bit(Settles(q, st))
         <= Pending(q, Load(q.max)) + Given(q, st, Load(q.max)) + Extra(q, st, Load(q.max))
    ensures Respawns(q, st) ==> Extra(q, st, Load(q.max)) == q.max - MessageOf(Subject(q, st)).retry
  {
    hide Pending, Next, Process, WithRetry, AttemptsLeft;
    if Enabled(q, st) {
      StepSums(q, st, Load(q.max));
      PositiveLoad(q.max, Subject(q, st));
      if st.Retry? { RetryCosts(q.max, Subject(q, st)); AttemptsAre(q.max, Subject(q, st)); }
    } else {
      Disabled(q, st);
    }
  }

  lemma AttemptsAre(max: nat, c: Copy)
    requires Decodable(c) && MessageOf(c).retry <= max
    ensures AttemptsLeft(max, c) == max + 1 - MessageOf(c).retry
  {
  }

  lemma PositiveLoad(max: nat, c: Copy)
    ensures AttemptsLeft(max, c) >= 1
  {
  }

  /** The attempts left of one message change by exactly what fails over, is left unused, is given and is respawned. */
  lemma LineStep(q: Queue, st: Step, l: nat)
    ensures var line := LineLoad(q.max, l);
            Pending(Next(q, st), line) + Bit(FailsOver(q, st, l)) + Unused(q, st, line)
            == Pending(q, line) + Given(q, st, line) + Extra(q, st, line)
  {
    hide Pending, Next, Process, WithRetry, AttemptsLeft;
    if Enabled(q, st) {
      StepSums(q, st, LineLoad(q.max, l));
      if st.Retry? {
        RetryCosts(q.max, Subject(q, st));
        RetryLineage(Subject(q, st));
      } else if st.Bury? {
        LastAttempt(q.max, Subject(q, st));
      }
    } else {
      Disabled(q, st);
    }
  }

  lemma LastAttempt(max: nat, c: Copy)
    requires Decodable(c) && MessageOf(c).retry >= max
    ensures AttemptsLeft(max, c) == 1
  {
  }

  lemma RetryLineage(c: Copy)
    requires Decodable(c)
    ensures WithRetry(c).lineage == c.lineage
  {
  }

  lemma SameMax(q: Queue, st: Step)
    ensures Next(q, st).max == q.max && q.lineages <= Next(q, st).lineages
  {
    hide DbNext, Process, Decode, Without;
  }

  /** So in every run the settled deliveries are bounded by the attempts put in, the respawned ones included. */
  lemma {:induction false} RunSettles(q: Queue, steps: seq<Step>)
    ensures SettleCount(q, steps) + Pending(Exec(q, steps), Load(q.max))
         <= Pending(q, Load(q.max)) + Published(q, steps, Load(q.max)) + Extras(q, steps, Load(q.max))
    decreases |steps|
  {
    hide Next, Pending, Settles, Given, Extra, Load;
    if steps == [] {
    } else {
      SettleShrinks(q, steps[0]);
      SameMax(q, steps[0]);
      RunSettles(Next(q, steps[0]), steps[1..]);
    }
  }

  lemma {:induction false} LineRun(q: Queue, steps: seq<Step>, l: nat)
    ensures var line := LineLoad(q.max, l);
            FailCount(q, steps, l) + Pending(Exec(q, steps), line) + UnusedIn(q, steps, line)
            == Pending(q, line) + Published(q, steps, line) + Extras(q, steps, line)
    decreases |steps|
  {
    hide Next, Pending, FailsOver, Given, Extra, Unused, LineLoad;
    if steps == [] {
    } else {
      LineStep(q, steps[0], l);
      SameMax(q, steps[0]);
      LineRun(Next(q, steps[0]), steps[1..], l);
    }
  }

  ghost predicate Known(q: Queue) {
    && (forall c :: c in q.ready ==> c.lineage < q.lineages)
    && (forall c :: c in q.unacked ==> c.lineage < q.lineages)
  }

  lemma {:induction false} NothingOf(s: seq<Copy>, max: nat, l: nat)
    requires forall c :: c in s ==> c.lineage != l
    ensures SumOver(s, LineLoad(max, l)) == 0
  {
    if s != [] { NothingOf(s[1..], max, l); }
  }

  lemma {:induction false} NotPublishedAgain(q: Queue, steps: seq<Step>, l: nat)
    requires l < q.lineages
    ensures Published(q, steps, LineLoad(q.max, l)) == 0
    decreases |steps|
  {
    hide Next, AttemptsLeft;
    if steps != [] {
      SameMax(q, steps[0]);
      NotPublishedAgain(Next(q, steps[0]), steps[1..], l);
    }
  }

  /** Lineage numbers in the queue are always ones given out. */
  lemma {:induction false} KnownRun(q: Queue, steps: seq<Step>)
    requires Known(q)
    ensures Known(Exec(q, steps))
    decreases |steps|
  {
    hide Next, Known;
    if steps == [] {
    } else {
      KnownStep(q, steps[0]);
      KnownRun(Next(q, steps[0]), steps[1..]);
    }
  }

  lemma KnownStep(q: Queue, st: Step)
    requires Known(q)
    ensures Known(Next(q, st))
  {
    hide DbNext, Process, Decode;
  }

  /** The attempts a message's respawned retries may repeat: `max - retry` for each, with the count it had before. */
  function Respawned(q: Queue, steps: seq<Step>, l: nat): nat
    decreases |steps|
  {
    if steps == [] then 0
    else
      (if Respawns(q, steps[0]) && Subject(q, steps[0]).lineage == l then q.max - MessageOf(Subject(q, steps[0])).retry
       else 0)
      + Respawned(Next(q, steps[0]), steps[1..], l)
  }

  lemma {:induction false} ExtrasAre(q: Queue, steps: seq<Step>, l: nat)
    ensures Extras(q, steps, LineLoad(q.max, l)) == Respawned(q, steps, l)
    decreases |steps|
  {
    hide Next, AttemptsLeft, WithRetry, Process;
    if steps != [] {
      SameMax(q, steps[0]);
      ExtrasAre(Next(q, steps[0]), steps[1..], l);
      if Respawns(q, steps[0]) {
        RetryCosts(q.max, Subject(q, steps[0]));
        AttemptsAre(q.max, Subject(q, steps[0]));
        RetryLineage(Subject(q, steps[0]));
      }
    }
  }

  lemma {:induction false} NoRespawn(q: Queue, steps: seq<Step>, l: nat)
    requires forall st :: st in steps && st.Retry? ==> st.acked
    ensures Respawned(q, steps, l) == 0
    decreases |steps|
  {
    hide Next, Enabled;
    if steps != [] { NoRespawn(Next(q, steps[0]), steps[1..], l); }
  }

  /** The attempts a message is published with: `max + 1` for a new task. */
  function Budget(max: nat, m: Message): nat {
    if m.retry <= 0 then max + 1 else if m.retry <= max then max + 1 - m.retry else 1
  }

  /**
    In every run, from its publish on, a message's failed attempts, the attempts
    its pending copies have left, and those its completed and rejected copies left
    unused are its budget plus what its respawned retries repeat. So it fails over
    more often than its budget if and only if more has been respawned than is
    left and unused. Crashes after a burial, requeues and lost completions cost
    nothing.
   */
  lemma FailsExactly(q: Queue, m: Message, steps: seq<Step>)
    requires Known(q) && m.orderNo != ""
    ensures var q1, line := Next(q, Publish(Encode(m).value)), LineLoad(q.max, q.lineages);
            var fails, left := FailCount(q1, steps, q.lineages), Pending(Exec(q1, steps), line);
            var unused, respawned := UnusedIn(q1, steps, line), Respawned(q1, steps, q.lineages);
            && fails + left + unused == Budget(q.max, m) + respawned
            && (fails <= Budget(q.max, m) <==> respawned <= left + unused)
  {
    hide Exec, FailCount, Published, Extras, Respawned, UnusedIn;
    var body := Encode(m).value;
    var q1 := Next(q, Publish(body));
    var line := LineLoad(q.max, q.lineages);
    NothingOf(q.ready, q.max, q.lineages);
    NothingOf(q.unacked, q.max, q.lineages);
    StepSums(q, Publish(body), line);
    NotPublishedAgain(q1, steps, q.lineages);
    LineRun(q1, steps, q.lineages);
    ExtrasAre(q1, steps, q.lineages);
  }

  /** While every retry is acknowledged, a new task fails over at most `max + 1` times. */
  lemma FailsAtMost(q: Queue, m: Message, steps: seq<Step>)
    requires Known(q) && m.orderNo != ""
    ensures (forall st :: st in steps && st.Retry? ==> st.acked) ==>
      FailCount(Next(q, Publish(Encode(m).value)), steps, q.lineages) <= Budget(q.max, m) <= q.max + 1
  {
    hide Exec, FailCount, Respawned, UnusedIn, Next, Known;
    FailsExactly(q, m, steps);
    if forall st :: st in steps && st.Retry? ==> st.acked {
      NoRespawn(Next(q, Publish(Encode(m).value)), steps, q.lineages);
    }
  }

  function EmptyQueue(max: nat, db: Db): Queue {
    Queue([], [], [], [], 0, max, db)
  }

  /** From an empty queue, whatever happened before the message was published. */
  lemma FailsExactlyFromStart(max: nat, db: Db, before: seq<Step>, m: Message, steps: seq<Step>)
    requires m.orderNo != ""
    ensures var q := Exec(EmptyQueue(max, db), before);
            var q1, line := Next(q, Publish(Encode(m).value)), LineLoad(max, q.lineages);
            var fails, left := FailCount(q1, steps, q.lineages), Pending(Exec(q1, steps), line);
            var unused, respawned := UnusedIn(q1, steps, line), Respawned(q1, steps, q.lineages);
            && fails + left + unused == Budget(max, m) + respawned
            && (fails <= Budget(max, m) <==> respawned <= left + unused)
  {
    hide Exec, Next, FailCount, Respawned, UnusedIn, Known, Pending;
    NothingKnown(max, db);
    KnownRun(EmptyQueue(max, db), before);
    MaxRun(EmptyQueue(max, db), before);
    FailsExactly(Exec(EmptyQueue(max, db), before), m, steps);
  }

  lemma {:induction false} MaxRun(q: Queue, steps: seq<Step>)
    ensures Exec(q, steps).max == q.max
    decreases |steps|
  {
    hide Next;
    if steps != [] {
      SameMax(q, steps[0]);
      MaxRun(Next(q, steps[0]), steps[1..]);
    }
  }

  lemma NothingKnown(max: nat, db: Db)
    ensures Known(EmptyQueue(max, db))
  {
  }

  /** The queue after its only idle copy `c` was delivered and failed. */
  function AfterAttempt(q: Queue, c: Copy, rest: seq<Copy>, acked: bool): Queue
    requires Decodable(c)
  {
    var back := if acked then rest else [c] + rest;
    if MessageOf(c).retry < q.max then q.(ready := back + [WithRetry(c)], unacked := [])
    else q.(ready := back, unacked := [], dead := q.dead + [c])
  }

  function AttemptSteps(q: Queue, c: Copy, acked: bool): seq<Step>
    requires Decodable(c)
  {
    [Deliver(0), if MessageOf(c).retry < q.max then Retry(0, acked) else Bury(0, acked)]
  }

  /** One delivery that fails, with nothing else under way. */
  lemma OneAttempt(q: Queue, c: Copy, rest: seq<Copy>, acked: bool, more: seq<Step>)
    requires q.ready == [c] + rest && q.unacked == [] && Decodable(c)
    ensures FailCount(q, AttemptSteps(q, c, acked) + more, c.lineage)
         == Bit(acked) + FailCount(AfterAttempt(q, c, rest, acked), more, c.lineage)
  {
    hide Decode, WithRetry, Process, DbNext;
    var steps := AttemptSteps(q, c, acked) + more;
    assert steps[1..] == [steps[1]] + more && steps[1..][1..] == more;
    var taken := Next(q, Deliver(0));
    assert taken == q.(ready := rest, unacked := [c]);
    assert Next(taken, steps[1]) == AfterAttempt(q, c, rest, acked);
  }

  /**
    Crashes do take a message past its limit: one between a retry's publish and
    its acknowledgement, and with a limit of one retry the message fails over
    three times.
   */
  lemma RespawnFailsThrice(now: int)
    ensures var q1 := Next(EmptyQueue(1, EmptyDb(now)), Publish(Encode(Message("a", 0)).value));
            var steps := [Deliver(0), Retry(0, false), Deliver(0), Retry(0, true),
                          Deliver(0), Bury(0, true), Deliver(0), Bury(0, true)];
            FailCount(q1, steps, 0) == 3
  {
    hide FailCount, Process, WithRetry, DbNext;
    var c := Copy(0, Encode(Message("a", 0)).value);
    var d := WithRetry(c);
    RetryCosts(1, c);
    RetryLineage(c);
    var q1 := Next(EmptyQueue(1, EmptyDb(now)), Publish(c.body));
    var q2 := AfterAttempt(q1, c, [], false);
    var q3 := AfterAttempt(q2, c, [d], true);
    var q4 := AfterAttempt(q3, d, [d], true);
    var last := AttemptSteps(q4, d, true);
    var third := AttemptSteps(q3, d, true) + last;
    var second := AttemptSteps(q2, c, true) + third;
    OneAttempt(q1, c, [], false, second);
    OneAttempt(q2, c, [d], true, third);
    OneAttempt(q3, d, [d], true, last);
    OneAttempt(q4, d, [], true, []);
    assert last + [] == last;
    NoMoreFails(AfterAttempt(q4, d, [], true), 0);
    assert AttemptSteps(q1, c, false) + second
        == [Deliver(0), Retry(0, false), Deliver(0), Retry(0, true),
            Deliver(0), Bury(0, true), Deliver(0), Bury(0, true)];
  }

  lemma NoMoreFails(q: Queue, l: nat)
    ensures FailCount(q, [], l) == 0
  {
  }

  // ---------- redelivery and the database ----------

  function DbSteps(q: Queue, steps: seq<Step>): seq<DbStep>
    decreases |steps|
  {
    if steps == [] then []
    else DbStepOf(q, steps[0]) + DbSteps(Next(q, steps[0]), steps[1..])
  }

  function DbStepOf(q: Queue, st: Step): seq<DbStep> {
    if !Enabled(q, st) then []
    else if st.Complete? then [ProcessOrder(MessageOf(q.unacked[st.i]).orderNo)]
    else if st.Elsewhere? then [st.ds]
    else []
  }

  lemma {:induction false} QueueDb(q: Queue, steps: seq<Step>)
    ensures Exec(q, steps).db == DbRun(q.db, DbSteps(q, steps))
    decreases |steps|
  {
    hide Next, DbStepOf, DbNext;
    if steps == [] {
    } else {
      var first, rest := DbStepOf(q, steps[0]), DbSteps(Next(q, steps[0]), steps[1..]);
      StepDb(q, steps[0]);
      QueueDb(Next(q, steps[0]), steps[1..]);
      if first == [] {
        assert first + rest == rest;
      } else {
        assert first + rest == [first[0]] + rest;
        assert ([first[0]] + rest)[1..] == rest;
      }
    }
  }

  lemma StepDb(q: Queue, st: Step)
    ensures |DbStepOf(q, st)| <= 1
    ensures Next(q, st).db == if DbStepOf(q, st) == [] then q.db else DbNext(q.db, DbStepOf(q, st)[0])
  {
    hide DbNext, Process, Decode, Without;
  }

  /**
    However often copies of a task are delivered, and whatever else happens, an
    order leaves the queue at most once.
   */
  lemma RedeliveryIsHarmless(q: Queue, steps: seq<Step>, no: OrderNo)
    ensures Exec(q, steps).db == DbRun(q.db, DbSteps(q, steps))
    ensures TimesReadied(q.db, DbSteps(q, steps), no) <= 1
  {
    hide Exec, DbRun, DbSteps;
    QueueDb(q, steps);
    ReadiedAtMostOnce(q.db, DbSteps(q, steps), no);
  }

  // ---------- the worker ----------

  /** The step a worker takes with its `i`-th delivery, from how its calls end. */
  function WorkerStep(q: Queue, i: nat, cancelled: bool, dbFails: bool, publish: Call, acked: bool): Step
    requires i < |q.unacked|
  {
    var c := q.unacked[i];
    if !Decodable(c) then Reject(i)
    else if cancelled then Requeue(i)
    else if !dbFails && Process(q.db, MessageOf(c).orderNo).Commit? then Complete(i, acked)
    else if publish == NotSent then Requeue(i)
    else if MessageOf(c).retry < q.max then Retry(i, acked && publish == Answered)
    else Bury(i, acked && publish == Answered)
  }

  /**
    What one delivery leads to, said on the queue. A body that cannot be read is
    dropped; a cancelled delivery goes back; a processed one goes for good if its
    acknowledgement arrives; a failed one is retried below the limit and buried at
    it, and goes only if the publish returned no error and the acknowledgement
    arrives.
   */
  ghost predicate Handled(q: Queue, i: nat, cancelled: bool, dbFails: bool, publish: Call, acked: bool, q': Queue)
    requires i < |q.unacked|
  {
    var c := q.unacked[i];
    var rest := q.(unacked := q.unacked[..i] + q.unacked[i + 1..]);
    var back := rest.(ready := [c] + q.ready);
    if !Decodable(c) then q' == rest
    else
      var m := MessageOf(c);
      if cancelled then q' == back
      else if !dbFails && m.orderNo in q.db.orders then
        var db := if q.db.orders[m.orderNo].status != Queued then q.db
                  else q.db.(orders := q.db.orders[m.orderNo :=
                    q.db.orders[m.orderNo].(status := WaitPay, updatedAt := q.db.now)]);
        q' == (if acked then rest.(done := q.done + [c]) else back).(db := db)
      else if publish == NotSent then q' == back
      else
        var left := if publish == Answered && acked then rest else back;
        if m.retry < q.max then q' == left.(ready := left.ready + [WithRetry(c)])
        else q' == left.(dead := q.dead + [c])
  }

  lemma HandledSo(q: Queue, i: nat, cancelled: bool, dbFails: bool, publish: Call, acked: bool)
    requires i < |q.unacked|
    ensures var st := WorkerStep(q, i, cancelled, dbFails, publish, acked);
            Handled(q, i, cancelled, dbFails, publish, acked, Next(q, st))
  {
    hide Decode, WithRetry, Next, Enabled;
    var c := q.unacked[i];
    if !Decodable(c) {
      RejectIs(q, i);
    } else {
      var no := MessageOf(c).orderNo;
      RequeueIs(q, i);
      ProcessIsRow(q.db, no);
      if Process(q.db, no).Commit? { CompleteIs(q, i, acked); }
      PassIs(q, i, acked && publish == Answered);
      hide Process;
    }
  }

  lemma ProcessIsRow(db: Db, no: OrderNo)
    ensures Process(db, no).Commit? <==> no in db.orders
    ensures no in db.orders ==>
      Process(db, no).db == if db.orders[no].status != Queued then db
                            else db.(orders := db.orders[no := db.orders[no].(status := WaitPay, updatedAt := db.now)])
  {
  }

  /** The queue after a completed delivery. */
  function Completed(q: Queue, i: nat, acked: bool): Queue
    requires i < |q.unacked| && Decodable(q.unacked[i])
  {
    var db := After(q.db, Process(q.db, MessageOf(q.unacked[i]).orderNo));
    var q' := q.(db := db, unacked := Without(q.unacked, i));
    if acked then q'.(done := q.done + [q.unacked[i]]) else q'.(ready := [q.unacked[i]] + q.ready)
  }

  lemma CompleteIs(q: Queue, i: nat, acked: bool)
    requires i < |q.unacked| && Decodable(q.unacked[i]) && Process(q.db, MessageOf(q.unacked[i]).orderNo).Commit?
    ensures Enabled(q, Complete(i, acked)) && Next(q, Complete(i, acked)) == Completed(q, i, acked)
  {
    hide Process, Decode, Without;
  }

  /** The queue after a failed delivery whose retry or dead letter went out. */
  function Passed(q: Queue, i: nat, acked: bool): Queue
    requires i < |q.unacked| && Decodable(q.unacked[i])
  {
    var c := q.unacked[i];
    var m := MessageOf(c);
    var back := if acked then q.ready else [c] + q.ready;
    var q' := q.(unacked := Without(q.unacked, i));
    if m.retry < q.max then q'.(ready := back + [WithRetry(c)]) else q'.(ready := back, dead := q.dead + [c])
  }

  lemma PassIs(q: Queue, i: nat, acked: bool)
    requires i < |q.unacked| && Decodable(q.unacked[i])
    ensures var st := if MessageOf(q.unacked[i]).retry < q.max then Retry(i, acked) else Bury(i, acked);
            Enabled(q, st) && Next(q, st) == Passed(q, i, acked)
  {
    hide Process, DbNext, Decode, WithRetry, Without;
  }

  lemma RejectIs(q: Queue, i: nat)
    requires i < |q.unacked| && !Decodable(q.unacked[i])
    ensures Enabled(q, Reject(i)) && Next(q, Reject(i)) == q.(unacked := Without(q.unacked, i))
  {
    hide Process, DbNext, Decode, Without;
  }

  lemma RequeueIs(q: Queue, i: nat)
    requires i < |q.unacked|
    ensures Enabled(q, Requeue(i))
    ensures Next(q, Requeue(i)) == q.(unacked := Without(q.unacked, i), ready := [q.unacked[i]] + q.ready)
  {
    hide Process, DbNext, Decode, Without;
  }

  class RabbitWorker {
    var ready: seq<Copy>
    var unacked: seq<Copy>
    /** Copies completed and acknowledged; the broker forgets them. */
    ghost var done: seq<Copy>
    var dead: seq<Copy>
    var lineages: nat
    var max: nat
    var db: Db

    ghost function Here(): Queue
      reads this
    {
      Queue(ready, unacked, done, dead, lineages, max, db)
    }

    constructor (now: int, maxRetries: int)
      ensures Here() == Queue([], [], [], [], 0, if maxRetries < 0 then 0 else maxRetries, EmptyDb(now))
    {
      ready, unacked, done, dead, lineages := [], [], [], [], 0;
      max := if maxRetries < 0 then 0 else maxRetries;
      db := EmptyDb(now);
    }

    /** Publishing a new task. An empty order number cannot be encoded. */
    method PublishTask(orderNo: OrderNo) returns (ok: bool)
      modifies this
      ensures ok <==> orderNo != ""
      ensures Here() == if ok then Next(old(Here()), Publish(Encode(Message(orderNo, 0)).value)) else old(Here())
    {
      var body := Encode(Message(orderNo, 0));
      if body.Err? { return false; }
      ready := ready + [Copy(lineages, body.value)];
      lineages := lineages + 1;
      return true;
    }

    /** Retry below the limit, dead letter at it; true when the caller may acknowledge. */
    method HandleOrderFailure(c: Copy, publish: Call) returns (handled: bool)
      requires Decodable(c)
      modifies this`ready, this`dead
      ensures handled <==> publish == Answered
      ensures ready == old(ready) + if publish != NotSent && MessageOf(c).retry < max then [WithRetry(c)] else []
      ensures dead == old(dead) + if publish != NotSent && MessageOf(c).retry >= max then [c] else []
    {
      var m := MessageOf(c);
      if m.retry < max {
        var next := m.(retry := m.retry + 1);
        var body := Encode(next);
        DecodedIsValid(c.body);
        if publish != NotSent { ready := ready + [Copy(c.lineage, body.value)]; }
        return publish == Answered;
      }
      if publish != NotSent { dead := dead + [c]; }
      return publish == Answered;
    }

    /** The connection is gone or the worker asked for it: the broker puts the copy back. */
    method PutBack(i: nat)
      requires i < |unacked|
      modifies this`ready, this`unacked
      ensures ready == [old(unacked)[i]] + old(ready) && unacked == Without(old(unacked), i)
    {
      ready := [unacked[i]] + ready;
      unacked := unacked[..i] + unacked[i + 1..];
    }

    /**
      One delivery in the worker loop. `cancelled` and `dbFails` are how the
      processing ends, `publish` how the retry or dead letter publish ends, and
      `acked` whether the acknowledgement arrives before a crash.
     */
    method HandleDelivery(i: nat, cancelled: bool, dbFails: bool, publish: Call, acked: bool)
      requires i < |unacked|
      modifies this
      ensures Here() == Next(old(Here()), WorkerStep(old(Here()), i, cancelled, dbFails, publish, acked))
      ensures Enabled(old(Here()), WorkerStep(old(Here()), i, cancelled, dbFails, publish, acked))
      ensures Handled(old(Here()), i, cancelled, dbFails, publish, acked, Here())
    {
      HandledSo(Here(), i, cancelled, dbFails, publish, acked);
      hide Decode, WithRetry, Process, DbNext, Next, Enabled, Handled;
      ghost var q := Here();
      var c := unacked[i];
      var msg := Decode(c.body);
      if msg.Err? {
        RejectIs(q, i);
        unacked := unacked[..i] + unacked[i + 1..];
        return;
      }
      RequeueIs(q, i);
      if cancelled { PutBack(i); return; }
      var processed := Process(db, msg.value.orderNo);
      if !dbFails && processed.Commit? {
        CompleteIs(q, i, acked);
        db := processed.db;
        if acked {
          unacked := unacked[..i] + unacked[i + 1..];
          done := done + [c];
        } else {
          PutBack(i);
        }
        return;
      }
      PassIs(q, i, acked && publish == Answered);
      var handled := HandleOrderFailure(c, publish);
      if handled && acked {
        unacked := unacked[..i] + unacked[i + 1..];
      } else {
        PutBack(i);
        assert [c] + (q.ready + [WithRetry(c)]) == [c] + q.ready + [WithRetry(c)];
      }
    }
  }
}
