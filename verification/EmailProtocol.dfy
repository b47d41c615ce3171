/**
  Any number of producers and workers around the broker. Every broker call is a separate event, so a
  worker may crash between publishing a retry and acknowledging the original.
 */
module EmailProtocol {
  import opened EmailJobs

  datatype Event =
    | Accept(body: Body)
    | Deliver(slot: nat)
    | RejectMalformed(slot: nat)
    | AckExpired(slot: nat, now: int)
    | Mail(slot: nat)
    | AckMailed(slot: nat)
    | Refuse(slot: nat)
    | PublishRetry(slot: nat)
    | AckRetried(slot: nat)
    | RejectFailed(slot: nat)
    | Redeliver(slot: nat)
    | RetryDue(slot: nat)

  predicate HeldAs(slots: seq<Slot>, i: nat, h: Hold) {
    i < |slots| && slots[i].place == Held(h)
  }

  predicate Readable(slots: seq<Slot>, i: nat) {
    HeldAs(slots, i, Received) && FromBytes(slots[i].body).Some?
  }

  /** `Redeliver`: the connection of a worker is lost, and with it its hold on a message. */
  predicate Enabled(slots: seq<Slot>, e: Event) {
    match e
    case Accept(body) => Id(body) != ""
    case Deliver(i) => i < |slots| && slots[i].place == In(Primary)
    case RejectMalformed(i) => HeldAs(slots, i, Received) && FromBytes(slots[i].body).None?
    case AckExpired(i, now) => Readable(slots, i) && slots[i].body.job.expiresAt <= now
    case Mail(i) => Readable(slots, i)
    case AckMailed(i) => HeldAs(slots, i, Mailed)
    case Refuse(i) => Readable(slots, i)
    case PublishRetry(i) => Readable(slots, i)
    case AckRetried(i) => HeldAs(slots, i, Forwarded)
    case RejectFailed(i) => Readable(slots, i) || HeldAs(slots, i, Forwarded)
    case Redeliver(i) => i < |slots| && slots[i].place.Held?
    case RetryDue(i) => i < |slots| && slots[i].place.In? && slots[i].place.queue.RetryQueue?
  }

  function Attempts(b: Body): int {
    if b.Fields? then b.job.attempts else 0
  }

  function Step(t: Topology, slots: seq<Slot>, e: Event): seq<Slot>
    requires Enabled(slots, e)
  {
    match e
    case Accept(body) => Published(t, slots, Send, Slot(body, In(Primary), Attempts(body), 0))
    case Deliver(i) =>
      slots[i := slots[i].(place := Held(Received), deliveries := slots[i].deliveries + 1)]
    case RejectMalformed(i) => Move(slots, i, DeadLetter(t, Primary))
    case AckExpired(i, _) => Move(slots, i, Settled(Expired))
    case Mail(i) => Move(slots, i, Held(Mailed))
    case AckMailed(i) => Move(slots, i, Settled(Sent))
    case Refuse(i) => Move(slots, i, DeadLetter(t, Primary))
    case PublishRetry(i) => Forward(t, slots, i)
    case AckRetried(i) => Move(slots, i, Settled(Replaced))
    case RejectFailed(i) => Move(slots, i, DeadLetter(t, Primary))
    case Redeliver(i) => Move(slots, i, In(Primary))
    case RetryDue(i) => Move(slots, i, DeadLetter(t, slots[i].place.queue))
  }

  predicate Valid(t: Topology, slots: seq<Slot>, es: seq<Event>)
    decreases |es|
  {
    es == [] || (Enabled(slots, es[0]) && Valid(t, Step(t, slots, es[0]), es[1..]))
  }

  function Exec(t: Topology, slots: seq<Slot>, es: seq<Event>): seq<Slot>
    requires Valid(t, slots, es)
    decreases |es|
  {
    if es == [] then slots else Exec(t, Step(t, slots, es[0]), es[1..])
  }

  // ---------------------------------------------------------------- no accepted job is lost

  /**
    The slot accounts for its job: it waits in a queue, is held by a worker that has not passed it
    on, or was mailed or dropped as expired.
   */
  predicate Accounts(s: Slot) {
    s.place != Held(Forwarded) && s.place != Settled(Replaced) && s.place != Settled(Lost)
  }

  ghost predicate Kept(slots: seq<Slot>, id: string) {
    exists i :: 0 <= i < |slots| && Id(slots[i].body) == id && Accounts(slots[i])
  }

  ghost predicate Accepted(es: seq<Event>, id: string) {
    exists i :: 0 <= i < |es| && es[i].Accept? && Id(es[i].body) == id
  }

  ghost predicate NothingLost(t: Topology) {
    forall es, id | Valid(t, [], es) && Accepted(es, id) :: Kept(Exec(t, [], es), id)
  }

  /** Slots are never removed, and every one waits only in a queue of the topology. */
  predicate Placed(slots: seq<Slot>) {
    forall i | 0 <= i < |slots| ::
      slots[i].place.In? && slots[i].place.queue.RetryQueue? ==> slots[i].place.queue.delay in QUEUE_DELAYS
  }

  /** The step a job's witness takes: the slot keeps accounting for it, or the copy just published does. */
  lemma StepKeeps(slots: seq<Slot>, e: Event, id: string)
    requires Enabled(slots, e) && Placed(slots)
    ensures Placed(Step(DECLARED, slots, e))
    ensures Kept(slots, id) || (e.Accept? && Id(e.body) == id) ==> Kept(Step(DECLARED, slots, e), id)
  {
    var s' := Step(DECLARED, slots, e);
    StepKeepsPlaced(slots, e);
    if e.Accept? && Id(e.body) == id {
      assert Id(s'[|slots|].body) == id && Accounts(s'[|slots|]);
    } else if Kept(slots, id) {
      var i :| 0 <= i < |slots| && Id(slots[i].body) == id && Accounts(slots[i]);
      var k := WitnessMoves(slots, e, i);
    }
  }

  lemma StepKeepsPlaced(slots: seq<Slot>, e: Event)
    requires Enabled(slots, e) && Placed(slots)
    ensures Placed(Step(DECLARED, slots, e))
  {
    if e.PublishRetry? {
      RetryKeysAreBound(slots[e.slot].body.job);
    }
  }

  /** The slot that accounts for the job after the step. */
  lemma WitnessMoves(slots: seq<Slot>, e: Event, i: nat) returns (k: nat)
    requires Enabled(slots, e) && Placed(slots) && i < |slots| && Accounts(slots[i])
    ensures var s' := Step(DECLARED, slots, e);
            k < |s'| && Id(s'[k].body) == Id(slots[i].body) && Accounts(s'[k])
  {
    k := i;
    if e == PublishRetry(i) {
      k := |slots|;
      RetryKeysAreBound(slots[i].body.job);
    }
  }

  /** Every key the worker publishes to is bound, to a retry queue or to the dead queue. */
  lemma RetryKeysAreBound(j: Job)
    requires 0 <= j.attempts
    ensures Route(DECLARED, KeyFor(j)).In?
    ensures Route(DECLARED, KeyFor(j)).queue.RetryQueue? ==>
              Route(DECLARED, KeyFor(j)).queue.delay in QUEUE_DELAYS
  {
    if j.attempts < |RETRY_DELAYS| {
      assert RETRY_DELAYS[j.attempts] in QUEUE_DELAYS;
    }
  }

  lemma {:induction false} RunsKeep(slots: seq<Slot>, es: seq<Event>, id: string)
    requires Valid(DECLARED, slots, es) && Placed(slots)
    requires Kept(slots, id) || Accepted(es, id)
    ensures Kept(Exec(DECLARED, slots, es), id)
    decreases |es|
  {
    if es != [] {
      StepKeeps(slots, es[0], id);
      var rest := es[1..];
      if Accepted(es, id) {
        var i :| 0 <= i < |es| && es[i].Accept? && Id(es[i].body) == id;
        assert i > 0 ==> rest[i - 1] == es[i];
      }
      RunsKeep(Step(DECLARED, slots, es[0]), rest, id);
    }
  }

  function Unbound(k: Key): Topology {
    DECLARED.(bindings := DECLARED.bindings - {k})
  }

  const USED_KEYS: set<Key> := {Send, Dead, Retry(30), Retry(60), Retry(120), Retry(240)}

  function SampleJob(attempts: int): Job {
    Job("a@b", "verify", "000000", 0, attempts, "x")
  }

  /** A run that loses a job when the binding of `k` is missing. */
  lemma MissingBindingLoses(k: Key) returns (es: seq<Event>)
    requires k in USED_KEYS
    ensures Valid(Unbound(k), [], es) && Accepted(es, "x") && !Kept(Exec(Unbound(k), [], es), "x")
  {
    match k
    case Send =>
      es := [Accept(Malformed("x"))];
      assert es[0].Accept? && Id(es[0].body) == "x";
      assert Exec(Unbound(k), [], es) == Step(Unbound(k), [], es[0]);
    case Dead => es := MissingDeadLoses();
    case Retry(d) =>
      es := MissingRetryLoses(if d == 30 then 0 else if d == 60 then 1 else if d == 120 then 2 else 3);
  }

  lemma MissingDeadLoses() returns (es: seq<Event>)
    ensures Valid(Unbound(Dead), [], es) && Accepted(es, "x") && !Kept(Exec(Unbound(Dead), [], es), "x")
  {
    es := [Accept(Malformed("x")), Deliver(0), RejectMalformed(0)];
    ThreeSteps(Unbound(Dead), es);
  }

  /** The job is published without attempts and goes through the earlier retry queues first. */
  lemma MissingRetryLoses(n: nat) returns (es: seq<Event>)
    requires n < |RETRY_DELAYS|
    ensures var t := Unbound(Retry(RETRY_DELAYS[n]));
            Valid(t, [], es) && Accepted(es, "x") && !Kept(Exec(t, [], es), "x")
    ensures es != [] && es[0] == Accept(Fields(SampleJob(0))) && forall i | 1 <= i < |es| :: !es[i].Accept?
  {
    var t := Unbound(Retry(RETRY_DELAYS[n]));
    es := Climb(t, n, n);
    var slots := Exec(t, [], es);
    Extend(t, [], es, Deliver(n));
    es := es + [Deliver(n)];
    Extend(t, [], es, PublishRetry(n));
    es := es + [PublishRetry(n)];
    var after := Exec(t, [], es);
    assert KeyFor(SampleJob(n)) !in t.bindings;
    assert forall i | 0 <= i < |after| :: !Accounts(after[i]);
    assert es[0].Accept? && Id(es[0].body) == "x";
  }

  /** The first attempts failed one by one; the latest retry is back in the primary queue. */
  ghost predicate Climbed(slots: seq<Slot>, n: nat) {
    && |slots| == n + 1 && slots[n].place == In(Primary) && slots[n].body == Fields(SampleJob(n))
    && forall i | 0 <= i < n :: slots[i].place == Held(Forwarded)
  }

  lemma {:induction false} Climb(t: Topology, n: nat, m: nat) returns (es: seq<Event>)
    requires n <= m < |RETRY_DELAYS| && t == Unbound(Retry(RETRY_DELAYS[m]))
    ensures Valid(t, [], es) && Climbed(Exec(t, [], es), n)
    ensures es != [] && es[0] == Accept(Fields(SampleJob(0))) && forall i | 1 <= i < |es| :: !es[i].Accept?
    decreases n
  {
    if n == 0 {
      es := [Accept(Fields(SampleJob(0)))];
      assert es[1..] == [];
      assert Exec(t, [], es) == Step(t, [], es[0]);
    } else {
      es := Climb(t, n - 1, m);
      ClimbOne(t, Exec(t, [], es), n, m);
      Extend(t, [], es, Deliver(n - 1));
      es := es + [Deliver(n - 1)];
      Extend(t, [], es, PublishRetry(n - 1));
      es := es + [PublishRetry(n - 1)];
      Extend(t, [], es, RetryDue(n));
      es := es + [RetryDue(n)];
    }
  }

  lemma ClimbOne(t: Topology, slots: seq<Slot>, n: nat, m: nat)
    requires 1 <= n <= m < |RETRY_DELAYS| && t == Unbound(Retry(RETRY_DELAYS[m])) && Climbed(slots, n - 1)
    ensures Enabled(slots, Deliver(n - 1))
    ensures var s1 := Step(t, slots, Deliver(n - 1));
            && Enabled(s1, PublishRetry(n - 1))
            && var s2 := Step(t, s1, PublishRetry(n - 1));
               Enabled(s2, RetryDue(n)) && Climbed(Step(t, s2, RetryDue(n)), n)
  {
    var d := RETRY_DELAYS[n - 1];
    assert Retry(d) in t.bindings && t.bindings[Retry(d)] == RetryQueue(d);
    assert t.deadLetter[RetryQueue(d)] == Send && t.bindings[Send] == Primary;
  }

  lemma {:induction false} Extend(t: Topology, slots: seq<Slot>, es: seq<Event>, e: Event)
    requires Valid(t, slots, es) && Enabled(Exec(t, slots, es), e)
    ensures Valid(t, slots, es + [e]) && Exec(t, slots, es + [e]) == Step(t, Exec(t, slots, es), e)
    decreases |es|
  {
    if es == [] {
      assert Exec(t, Step(t, slots, e), [e][1..]) == Step(t, slots, e);
    } else {
      assert (es + [e])[1..] == es[1..] + [e];
      Extend(t, Step(t, slots, es[0]), es[1..], e);
    }
  }

  lemma ThreeSteps(t: Topology, es: seq<Event>)
    requires |es| == 3 && Enabled([], es[0])
    requires Enabled(Step(t, [], es[0]), es[1])
    requires Enabled(Step(t, Step(t, [], es[0]), es[1]), es[2])
    ensures Valid(t, [], es)
    ensures Exec(t, [], es) == Step(t, Step(t, Step(t, [], es[0]), es[1]), es[2])
    ensures es[0].Accept? ==> Accepted(es, Id(es[0].body))
  {
    var s1 := Step(t, [], es[0]);
    var s2 := Step(t, s1, es[1]);
    var last := es[2..];
    var tail := es[1..];
    assert tail[0] == es[1] && tail[1..] == last && last[1..] == [];
    assert Valid(t, Step(t, s2, last[0]), last[1..]);
    assert Exec(t, s2, last) == Step(t, s2, es[2]);
    assert Valid(t, s1, tail);
    assert Exec(t, s1, tail) == Exec(t, Step(t, s1, tail[0]), tail[1..]);
  }

  /**
    Whatever crashes and redeliveries happen, no accepted job is lost; and each binding that the
    publisher, the worker or a queue relies on is needed for that.
   */
  lemma NothingLostIffBound(k: Key)
    ensures NothingLost(DECLARED)
    ensures NothingLost(Unbound(k)) <==> k !in USED_KEYS
  {
    forall es, id | Valid(DECLARED, [], es) && Accepted(es, id) ensures Kept(Exec(DECLARED, [], es), id) {
      RunsKeep([], es, id);
    }
    if k in USED_KEYS {
      var es := MissingBindingLoses(k);
    } else {
      assert Unbound(k).bindings == DECLARED.bindings;
    }
  }

  /** Slot `i` of the run's end is that job, settled as sent. */
  ghost predicate SentIn(slots: seq<Slot>, es: seq<Event>, i: nat, body: Body)
    requires Valid(DECLARED, slots, es)
  {
    var after := Exec(DECLARED, slots, es);
    i < |after| && after[i].body == body && after[i].place == Settled(Sent)
  }

  /**
    No job gets stuck: wherever it waits or is held, in any queue but the dead one, the broker can bring
    it back to a worker, and a worker that mails and acknowledges it settles it as sent.
   */
  lemma CanStillBeSent(slots: seq<Slot>, i: nat) returns (es: seq<Event>)
    requires Placed(slots) && i < |slots| && FromBytes(slots[i].body).Some?
    requires slots[i].place.Held? || (slots[i].place.In? && slots[i].place.queue != DeadQueue)
    ensures Valid(DECLARED, slots, es) && SentIn(slots, es, i, slots[i].body)
  {
    es := [];
    if slots[i].place.Held? {
      Extend(DECLARED, slots, es, Redeliver(i));
      es := es + [Redeliver(i)];
    } else if slots[i].place.queue.RetryQueue? {
      var d := slots[i].place.queue.delay;
      assert DeadLetter(DECLARED, RetryQueue(d)) == In(Primary);
      Extend(DECLARED, slots, es, RetryDue(i));
      es := es + [RetryDue(i)];
    }
    var waiting := Exec(DECLARED, slots, es);
    assert waiting[i].place == In(Primary) && waiting[i].body == slots[i].body;
    Extend(DECLARED, slots, es, Deliver(i));
    es := es + [Deliver(i)];
    Extend(DECLARED, slots, es, Mail(i));
    es := es + [Mail(i)];
    Extend(DECLARED, slots, es, AckMailed(i));
    es := es + [AckMailed(i)];
  }

  // ---------------------------------------------------------------- the worker's call is such a run

  /** What one worker call does is a run of single events, whichever of its broker calls fail. */
  lemma HandleIsARun(t: Topology, slots: seq<Slot>, i: nat, now: int, smtp: Smtp, up: Calls)
    returns (es: seq<Event>)
    requires HeldAs(slots, i, Received)
    ensures Valid(t, slots, es) && Exec(t, slots, es) == Handle(t, slots, i, now, smtp, up)
    ensures forall k | 0 <= k < |es| :: !es[k].Accept? && !es[k].Deliver? && !es[k].Redeliver?
    ensures Mail(i) in es <==> smtp.Accepted? && Tried(slots[i].body, now)
    ensures Refuse(i) in es <==> smtp.Refused? && Tried(slots[i].body, now) && up.reject
  {
    var parsed := FromBytes(slots[i].body);
    if parsed.None? {
      es := if up.reject then [RejectMalformed(i)] else [];
    } else if parsed.value.expiresAt <= now {
      es := if up.ack then [AckExpired(i, now)] else [];
    } else {
      match smtp
      case Accepted => es := if up.ack then [Mail(i), AckMailed(i)] else [Mail(i)];
      case Refused => es := if up.reject then [Refuse(i)] else [];
      case Failed =>
        es := if !up.publish then (if up.reject then [RejectFailed(i)] else [])
              else if up.ack then [PublishRetry(i), AckRetried(i)]
              else if up.reject then [PublishRetry(i), RejectFailed(i)] else [PublishRetry(i)];
    }
    if |es| == 1 {
      assert es == [es[0]];
      OneEvent(t, slots, es[0]);
    } else if |es| == 2 {
      assert es == [es[0], es[1]];
      TwoEvents(t, slots, es[0], es[1]);
    }
  }

  lemma OneEvent(t: Topology, slots: seq<Slot>, e: Event)
    requires Enabled(slots, e)
    ensures Valid(t, slots, [e]) && Exec(t, slots, [e]) == Step(t, slots, e)
  {
    assert [e][1..] == [];
  }

  lemma TwoEvents(t: Topology, slots: seq<Slot>, e: Event, f: Event)
    requires Enabled(slots, e) && Enabled(Step(t, slots, e), f)
    ensures Valid(t, slots, [e, f]) && Exec(t, slots, [e, f]) == Step(t, Step(t, slots, e), f)
  {
    assert [e, f][1..] == [f];
    OneEvent(t, Step(t, slots, e), f);
  }

  // ---------------------------------------------------------------- conservation

  /** How many messages carry an id; one replaced by its retry, or lost, is none. */
  function Copies(slots: seq<Slot>, id: string): nat {
    if slots == [] then 0
    else Copies(slots[..|slots| - 1], id) + Share(slots[|slots| - 1], id)
  }

  function Share(s: Slot, id: string): nat {
    if Id(s.body) != id || s.place == Settled(Replaced) || s.place == Settled(Lost) then 0 else 1
  }

  lemma {:induction false} CopiesOfUpdate(slots: seq<Slot>, i: nat, x: Slot, id: string)
    requires i < |slots|
    ensures Copies(slots[i := x], id) == Copies(slots, id) - Share(slots[i], id) + Share(x, id)
  {
    var n := |slots| - 1;
    if i == n {
      assert slots[i := x][..n] == slots[..n];
    } else {
      CopiesOfUpdate(slots[..n], i, x, id);
      assert slots[i := x][..n] == slots[..n][i := x];
    }
  }

  lemma CopiesOfAppend(slots: seq<Slot>, x: Slot, id: string)
    ensures Copies(slots + [x], id) == Copies(slots, id) + Share(x, id)
  {
    assert (slots + [x])[..|slots|] == slots;
  }

  /**
    When acknowledgements and rejections go through, a delivered message ends up in exactly one
    place: no id's number of messages over queues, workers and outcomes changes.
   */
  lemma HandleConserves(slots: seq<Slot>, i: nat, now: int, smtp: Smtp, publishUp: bool, id: string)
    requires HeldAs(slots, i, Received)
    ensures var after := Handle(DECLARED, slots, i, now, smtp, Calls(publishUp, true, true));
            Copies(after, id) == Copies(slots, id) && !after[i].place.Held?
  {
    var parsed := FromBytes(slots[i].body);
    if parsed.Some? && parsed.value.expiresAt > now && smtp.Failed? && publishUp {
      ForwardConserves(slots, i, id);
    } else {
      var after := Handle(DECLARED, slots, i, now, smtp, Calls(publishUp, true, true));
      assert after == slots[i := after[i]];
      CopiesOfUpdate(slots, i, after[i], id);
    }
  }

  lemma ForwardConserves(slots: seq<Slot>, i: nat, id: string)
    requires Readable(slots, i)
    ensures Copies(Move(Forward(DECLARED, slots, i), i, Settled(Replaced)), id) == Copies(slots, id)
  {
    var job := slots[i].body.job;
    RetryKeysAreBound(job);
    var copy := Slot(Fields(Next(job)), Route(DECLARED, KeyFor(job)), slots[i].born, slots[i].deliveries);
    var rest := Move(slots, i, Settled(Replaced));
    assert Move(Forward(DECLARED, slots, i), i, Settled(Replaced)) == rest + [copy];
    CopiesOfUpdate(slots, i, rest[i], id);
    CopiesOfAppend(rest, copy, id);
  }

  // ---------------------------------------------------------------- bounded deliveries

  /** How often a job with this many attempts can still be delivered. */
  function Bound(attempts: int): nat {
    if attempts <= 3 && 0 <= attempts then 5 - attempts else 1
  }

  function Remaining(s: Slot): nat {
    match s.place
    case In(DeadQueue) => 0
    case In(_) => Bound(Attempts(s.body))
    case Held(Received) => Bound(Attempts(s.body)) - 1
    case _ => 0
  }

  /** A job's deliveries so far and to come. */
  function Ahead(s: Slot): nat {
    s.deliveries + Remaining(s)
  }

  /** A life without crashes: accepted, delivered, handled in one go, and returned from retry queues. */
  datatype Turn =
    | Arrive(body: Body)
    | Receive(slot: nat)
    | Work(slot: nat, now: int, smtp: Smtp, publishUp: bool)
    | Return(slot: nat)

  predicate CanTurn(slots: seq<Slot>, turn: Turn) {
    match turn
    case Arrive(body) => Enabled(slots, Accept(body))
    case Receive(i) => Enabled(slots, Deliver(i))
    case Work(i, _, _, _) => HeldAs(slots, i, Received)
    case Return(i) => Enabled(slots, RetryDue(i))
  }

  function Take(slots: seq<Slot>, turn: Turn): seq<Slot>
    requires CanTurn(slots, turn)
  {
    match turn
    case Arrive(body) => Step(DECLARED, slots, Accept(body))
    case Receive(i) => Step(DECLARED, slots, Deliver(i))
    case Work(i, now, smtp, up) => Handle(DECLARED, slots, i, now, smtp, Calls(up, true, true))
    case Return(i) => Step(DECLARED, slots, RetryDue(i))
  }

  predicate Lives(slots: seq<Slot>, turns: seq<Turn>)
    decreases |turns|
  {
    turns == [] || (CanTurn(slots, turns[0]) && Lives(Take(slots, turns[0]), turns[1..]))
  }

  function Live(slots: seq<Slot>, turns: seq<Turn>): seq<Slot>
    requires Lives(slots, turns)
    decreases |turns|
  {
    if turns == [] then slots else Live(Take(slots, turns[0]), turns[1..])
  }

  function Arrivals(turns: seq<Turn>, id: string): nat {
    if turns == [] then 0
    else (if turns[0].Arrive? && Id(turns[0].body) == id then 1 else 0) + Arrivals(turns[1..], id)
  }

  ghost predicate Bounded(slots: seq<Slot>) {
    forall i | 0 <= i < |slots| :: Ahead(slots[i]) <= Bound(slots[i].born)
  }

  /**
    A message waiting in the primary queue can be delivered `Bound` times; once received and handled,
    it can no more be delivered itself, and the copy published for it, if any, fewer times than that. No
    message, and no copy compared with its original, has more deliveries so far and to come.
   */
  lemma HandleKeepsBound(slots: seq<Slot>, i: nat, now: int, smtp: Smtp, publishUp: bool)
    requires HeldAs(slots, i, Received) && Bounded(slots) && Placed(slots)
    ensures var after := Handle(DECLARED, slots, i, now, smtp, Calls(publishUp, true, true));
            && Bounded(after) && Placed(after)
            && |slots| <= |after| <= |slots| + 1 && Remaining(after[i]) == 0
            && (|after| > |slots| ==> Remaining(after[|slots|]) < Bound(Attempts(slots[i].body)))
            && (forall k | 0 <= k < |after| :: Ahead(after[k]) <= Ahead(slots[if k < |slots| then k else i]))
  {
    var after := Handle(DECLARED, slots, i, now, smtp, Calls(publishUp, true, true));
    assert forall k | 0 <= k < |slots| && k != i :: after[k] == slots[k];
    assert Remaining(after[i]) == 0 && after[i].deliveries == slots[i].deliveries;
    if |after| > |slots| {
      RetryKeysAreBound(slots[i].body.job);
      assert after[|slots|].deliveries == slots[i].deliveries && after[|slots|].born == slots[i].born;
      assert Remaining(after[|slots|]) <= Remaining(slots[i]);
    }
  }

  lemma TakeKeepsBound(slots: seq<Slot>, turn: Turn)
    requires CanTurn(slots, turn) && Bounded(slots) && Placed(slots)
    ensures Bounded(Take(slots, turn)) && Placed(Take(slots, turn))
  {
    var after := Take(slots, turn);
    match turn
    case Arrive(_) =>
    case Receive(i) => assert forall k | 0 <= k < |slots| && k != i :: after[k] == slots[k];
    case Work(i, now, smtp, up) => HandleKeepsBound(slots, i, now, smtp, up);
    case Return(i) => assert forall k | 0 <= k < |slots| && k != i :: after[k] == slots[k];
  }

  lemma TakeKeepsCopies(slots: seq<Slot>, turn: Turn, id: string)
    requires CanTurn(slots, turn) && Placed(slots)
    ensures Copies(Take(slots, turn), id) ==
            Copies(slots, id) + if turn.Arrive? && Id(turn.body) == id then 1 else 0
  {
    var after := Take(slots, turn);
    match turn
    case Arrive(body) => CopiesOfAppend(slots, after[|slots|], id);
    case Receive(i) => CopiesOfUpdate(slots, i, after[i], id);
    case Work(i, now, smtp, up) => HandleConserves(slots, i, now, smtp, up, id);
    case Return(i) => CopiesOfUpdate(slots, i, after[i], id);
  }

  lemma {:induction false} LivesAreConservedAndBounded(slots: seq<Slot>, turns: seq<Turn>, id: string)
    requires Lives(slots, turns) && Bounded(slots) && Placed(slots)
    ensures Copies(Live(slots, turns), id) == Copies(slots, id) + Arrivals(turns, id)
    ensures Bounded(Live(slots, turns))
    decreases |turns|
  {
    if turns != [] {
      TakeKeepsBound(slots, turns[0]);
      TakeKeepsCopies(slots, turns[0], id);
      LivesAreConservedAndBounded(Take(slots, turns[0]), turns[1..], id);
    }
  }

  /**
    Without crashes there are at all times as many messages of an id, over queues, workers and
    outcomes, as were accepted; and no job is delivered more often than the attempts it was accepted
    with allow.
   */
  lemma JobsAreConservedAndBounded(turns: seq<Turn>, id: string)
    requires Lives([], turns)
    ensures Copies(Live([], turns), id) == Arrivals(turns, id)
    ensures forall i | 0 <= i < |Live([], turns)| ::
              Live([], turns)[i].deliveries <= Bound(Live([], turns)[i].born)
  {
    LivesAreConservedAndBounded([], turns, id);
  }
}
