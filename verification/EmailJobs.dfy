/** Email jobs, the broker topology they travel through, and one worker call at a time. */
module EmailJobs {
  import opened Common

  datatype Job = Job(recipient: string, template: string, code: string, expiresAt: int, attempts: int, id: string)

  /** A message body: the fields of a job, or bytes that do not decode to any. */
  datatype Body = Malformed(text: string) | Fields(job: Job)

  predicate WellFormed(j: Job) {
    && '@' in j.recipient && |j.recipient| <= 320
    && j.template in ["verify", "reset"]
    && |j.code| == 6 && (forall i | 0 <= i < 6 :: '0' <= j.code[i] <= '9')
    && 0 <= j.attempts
  }

  function FromBytes(b: Body): Option<Job> {
    if b.Fields? && WellFormed(b.job) then Some(b.job) else None
  }

  /** A job without an id is given a newly drawn one. */
  function ToBytes(j: Job, drawn: string): Body {
    Fields(j.(id := if j.id == "" then drawn else j.id))
  }

  /** A body decodes to the job it was made of exactly if the job is well formed. */
  lemma JobRoundTrip(j: Job, drawn: string)
    ensures FromBytes(ToBytes(j, drawn)) == Some(j.(id := if j.id == "" then drawn else j.id)) <==> WellFormed(j)
    ensures FromBytes(ToBytes(j, drawn)).None? <==> !WellFormed(j)
  {
    var k := j.(id := if j.id == "" then drawn else j.id);
    assert WellFormed(k) <==> WellFormed(j);
  }

  function Id(b: Body): string {
    if b.Fields? then b.job.id else b.text
  }

  // ---------------------------------------------------------------- topology

  datatype Queue = Primary | DeadQueue | RetryQueue(delay: nat)

  datatype Key = Send | Dead | Retry(delay: nat)

  /** The exchange's bindings, and the key under which each queue gives up a message. */
  datatype Topology = Topology(bindings: map<Key, Queue>, deadLetter: map<Queue, Key>)

  /** What the topology declares. */
  const QUEUE_DELAYS: seq<nat> := [30, 60, 120, 240]

  /** What the worker publishes to. */
  const RETRY_DELAYS: seq<nat> := [30, 60, 120, 240]

  const DECLARED := Topology(
    map[Dead := DeadQueue, Send := Primary, Retry(30) := RetryQueue(30), Retry(60) := RetryQueue(60),
        Retry(120) := RetryQueue(120), Retry(240) := RetryQueue(240)],
    map[Primary := Dead, RetryQueue(30) := Send, RetryQueue(60) := Send, RetryQueue(120) := Send,
        RetryQueue(240) := Send])

  /** A topology to which the dead queue, the primary queue and the first `n` retry queues were added. */
  function WithQueues(t: Topology, n: nat): Topology
    requires n <= |QUEUE_DELAYS|
  {
    if n == 0 then
      Topology(t.bindings[Dead := DeadQueue][Send := Primary], t.deadLetter[Primary := Dead])
    else
      WithRetryQueue(WithQueues(t, n - 1), QUEUE_DELAYS[n - 1])
  }

  function WithRetryQueue(t: Topology, d: nat): Topology {
    Topology(t.bindings[Retry(d) := RetryQueue(d)], t.deadLetter[RetryQueue(d) := Send])
  }

  /** Whatever the broker already holds was declared before. */
  predicate PartOfDeclared(t: Topology) {
    && (forall k | k in t.bindings :: k in DECLARED.bindings && t.bindings[k] == DECLARED.bindings[k])
    && (forall q | q in t.deadLetter :: q in DECLARED.deadLetter && t.deadLetter[q] == DECLARED.deadLetter[q])
  }

  lemma {:induction false} DeclaringStaysDeclared(t: Topology, n: nat)
    requires PartOfDeclared(t) && n <= |QUEUE_DELAYS|
    ensures PartOfDeclared(WithQueues(t, n))
  {
    if n > 0 {
      DeclaringStaysDeclared(t, n - 1);
      AddingStaysDeclared(WithQueues(t, n - 1), QUEUE_DELAYS[n - 1]);
    }
  }

  lemma {:induction false} DeclaringAdds(t: Topology, n: nat)
    requires n <= |QUEUE_DELAYS|
    ensures var w := WithQueues(t, n);
            && Dead in w.bindings && Send in w.bindings && Primary in w.deadLetter
            && forall i | 0 <= i < n ::
                 Retry(QUEUE_DELAYS[i]) in w.bindings && RetryQueue(QUEUE_DELAYS[i]) in w.deadLetter
  {
    if n > 0 {
      DeclaringAdds(t, n - 1);
    }
  }

  lemma AddingStaysDeclared(t: Topology, d: nat)
    requires PartOfDeclared(t) && d in QUEUE_DELAYS
    ensures PartOfDeclared(WithRetryQueue(t, d))
  {
    assert Retry(d) in DECLARED.bindings && DECLARED.bindings[Retry(d)] == RetryQueue(d);
    assert RetryQueue(d) in DECLARED.deadLetter && DECLARED.deadLetter[RetryQueue(d)] == Send;
  }

  /** Declaring on an empty broker, on a declared one or after a crash half-way gives the same topology. */
  lemma DeclaringIsIdempotent(t: Topology)
    requires PartOfDeclared(t)
    ensures WithQueues(t, |QUEUE_DELAYS|) == DECLARED
  {
    var n := |QUEUE_DELAYS|;
    DeclaringStaysDeclared(t, n);
    DeclaringAdds(t, n);
    var w := WithQueues(t, n);
    assert QUEUE_DELAYS[0] == 30 && QUEUE_DELAYS[1] == 60 && QUEUE_DELAYS[2] == 120 && QUEUE_DELAYS[3] == 240;
    assert w.bindings.Keys == DECLARED.bindings.Keys;
    assert w.deadLetter.Keys == DECLARED.deadLetter.Keys;
    assert w.bindings == DECLARED.bindings && w.deadLetter == DECLARED.deadLetter;
  }

  function KeyFor(j: Job): Key
    requires 0 <= j.attempts
  {
    if j.attempts >= |RETRY_DELAYS| then Dead else Retry(RETRY_DELAYS[j.attempts])
  }

  /** What the worker publishes when sending failed: the next attempt, or the body as it came. */
  function Next(j: Job): Job {
    if j.attempts >= |RETRY_DELAYS| then j else j.(attempts := j.attempts + 1)
  }

  // ---------------------------------------------------------------- messages and their places

  /** A message held by a worker: just delivered, mailed, or already published again. */
  datatype Hold = Received | Mailed | Forwarded

  datatype End = Sent | Expired | Replaced | Lost

  datatype Place = In(queue: Queue) | Held(hold: Hold) | Settled(end: End)

  /**
    One message. `born` and `deliveries` follow a job through its retries: the attempts it was
    accepted with, and how often a worker has received it.
   */
  datatype Slot = Slot(body: Body, place: Place, born: int, deliveries: nat)

  function Route(t: Topology, key: Key): Place {
    if key in t.bindings then In(t.bindings[key]) else Settled(Lost)
  }

  /** Where a message goes that its queue gives up. */
  function DeadLetter(t: Topology, q: Queue): Place {
    if q in t.deadLetter then Route(t, t.deadLetter[q]) else Settled(Lost)
  }

  function Move(slots: seq<Slot>, i: nat, p: Place): seq<Slot>
    requires i < |slots|
  {
    slots[i := slots[i].(place := p)]
  }

  function Published(t: Topology, slots: seq<Slot>, key: Key, slot: Slot): seq<Slot> {
    slots + [slot.(place := Route(t, key))]
  }

  /** The worker publishes the next attempt of the job it holds. */
  function Forward(t: Topology, slots: seq<Slot>, i: nat): seq<Slot>
    requires i < |slots| && FromBytes(slots[i].body).Some?
  {
    var j := slots[i].body.job;
    Published(t, Move(slots, i, Held(Forwarded)), KeyFor(j), slots[i].(body := Fields(Next(j))))
  }

  datatype Smtp = Accepted | Refused | Failed

  /** Which broker calls go through; one that does not raises. */
  datatype Calls = Calls(publish: bool, ack: bool, reject: bool)

  function Rejected(t: Topology, slots: seq<Slot>, i: nat, up: bool): seq<Slot>
    requires i < |slots|
  {
    if up then Move(slots, i, DeadLetter(t, Primary)) else slots
  }

  /** What the worker makes of the message it holds. */
  function Handle(t: Topology, slots: seq<Slot>, i: nat, now: int, smtp: Smtp, up: Calls): seq<Slot>
    requires i < |slots| && slots[i].place == Held(Received)
  {
    match FromBytes(slots[i].body)
    case None => Rejected(t, slots, i, up.reject)
    case Some(j) =>
      if j.expiresAt <= now then
        if up.ack then Move(slots, i, Settled(Expired)) else slots
      else
        match smtp
        case Accepted => Move(slots, i, if up.ack then Settled(Sent) else Held(Mailed))
        case Refused => Rejected(t, slots, i, up.reject)
        case Failed => HandleFailed(t, slots, i, up)
  }

  /** A retry is published first; a message that could not be passed on and acknowledged is rejected. */
  function HandleFailed(t: Topology, slots: seq<Slot>, i: nat, up: Calls): seq<Slot>
    requires i < |slots| && FromBytes(slots[i].body).Some?
  {
    if !up.publish then Rejected(t, slots, i, up.reject)
    else if up.ack then Move(Forward(t, slots, i), i, Settled(Replaced))
    else Rejected(t, Forward(t, slots, i), i, up.reject)
  }

  // ---------------------------------------------------------------- what becomes of a message

  /** Slot `i` goes to a new place; every other message is as it was, and none is added. */
  predicate OnlyMoved(before: seq<Slot>, after: seq<Slot>, i: nat, p: Place)
    requires i < |before|
  {
    && |after| == |before| && after[i] == before[i].(place := p)
    && forall k | 0 <= k < |before| && k != i :: after[k] == before[k]
  }

  /** Slot `i` goes to a new place, and one message is added: the retry of its job. */
  predicate MovedAndRetried(before: seq<Slot>, after: seq<Slot>, i: nat, p: Place, j: Job)
    requires i < |before|
  {
    && |after| == |before| + 1 && OnlyMoved(before, after[..|before|], i, p)
    && after[|before|].body.Fields? && RetryOf(j, after[|before|].body.job, after[|before|].place)
  }

  /** The same job one attempt later in that attempt's retry queue, or after the last one in the dead queue. */
  predicate RetryOf(j: Job, copy: Job, p: Place) {
    && copy.recipient == j.recipient && copy.template == j.template && copy.code == j.code
    && copy.expiresAt == j.expiresAt && copy.id == j.id
    && copy.attempts == (if j.attempts < 4 then j.attempts + 1 else j.attempts)
    && p == In(if j.attempts == 0 then RetryQueue(30)
               else if j.attempts == 1 then RetryQueue(60)
               else if j.attempts == 2 then RetryQueue(120)
               else if j.attempts == 3 then RetryQueue(240)
               else DeadQueue)
  }

  /** The message can be read and has not expired: the worker tries to send it. */
  predicate Tried(b: Body, now: int) {
    b.Fields? && WellFormed(b.job) && now < b.job.expiresAt
  }

  /**
    The outcome of one worker call on the declared topology. A message that was sent is settled as
    sent, a refused or unreadable one goes to the dead queue, an expired one is settled as expired, and
    one that could not be sent is replaced by its retry. What a broker call that raises leaves behind is
    said beside.
   */
  predicate Outcome(before: seq<Slot>, after: seq<Slot>, i: nat, now: int, smtp: Smtp, up: Calls)
    requires i < |before|
  {
    var b := before[i].body;
    if b.Fields? && WellFormed(b.job) && b.job.expiresAt <= now then
      if up.ack then OnlyMoved(before, after, i, Settled(Expired)) else after == before
    else if !Tried(b, now) || smtp.Refused? || (smtp.Failed? && !up.publish) then
      if up.reject then OnlyMoved(before, after, i, In(DeadQueue)) else after == before
    else if smtp.Accepted? then
      OnlyMoved(before, after, i, if up.ack then Settled(Sent) else Held(Mailed))
    else
      MovedAndRetried(
        before, after, i,
        if up.ack then Settled(Replaced) else if up.reject then In(DeadQueue) else Held(Forwarded), b.job)
  }

  lemma HandleHasOutcome(slots: seq<Slot>, i: nat, now: int, smtp: Smtp, up: Calls)
    requires i < |slots| && slots[i].place == Held(Received)
    ensures Outcome(slots, Handle(DECLARED, slots, i, now, smtp, up), i, now, smtp, up)
  {
    assert DeadLetter(DECLARED, Primary) == In(DeadQueue);
    if Tried(slots[i].body, now) && smtp.Failed? && up.publish {
      var j := slots[i].body.job;
      RetryRoute(j);
      var after := Handle(DECLARED, slots, i, now, smtp, up);
      assert after[|slots|] == slots[i].(body := Fields(Next(j)), place := Route(DECLARED, KeyFor(j)));
    }
  }

  lemma RetryRoute(j: Job)
    requires 0 <= j.attempts
    ensures RetryOf(j, Next(j), Route(DECLARED, KeyFor(j)))
  {
    if j.attempts < |RETRY_DELAYS| {
      assert Retry(RETRY_DELAYS[j.attempts]) in DECLARED.bindings;
    }
  }

  // ---------------------------------------------------------------- the objects

  /** The broker: its topology as declared so far, and every message it was given. */
  class Broker {
    var topology: Topology
    var slots: seq<Slot>

    constructor ()
      ensures topology == Topology(map[], map[]) && slots == []
    {
      topology, slots := Topology(map[], map[]), [];
    }

    method DeclareQueue(q: Queue, deadLetter: Option<Key>)
      modifies this`topology
      ensures topology.bindings == old(topology.bindings)
      ensures topology.deadLetter == if deadLetter.Some? then old(topology.deadLetter)[q := deadLetter.value]
                                     else old(topology.deadLetter)
    {
      if deadLetter.Some? {
        topology := topology.(deadLetter := topology.deadLetter[q := deadLetter.value]);
      }
    }

    method Bind(q: Queue, key: Key)
      modifies this`topology
      ensures topology == old(topology).(bindings := old(topology).bindings[key := q])
    {
      topology := topology.(bindings := topology.bindings[key := q]);
    }

    method DeclareTopology()
      modifies this`topology
      ensures topology == WithQueues(old(topology), |QUEUE_DELAYS|)
      ensures PartOfDeclared(old(topology)) ==> topology == DECLARED
    {
      DeclareQueue(DeadQueue, None);
      Bind(DeadQueue, Dead);
      DeclareQueue(Primary, Some(Dead));
      Bind(Primary, Send);
      for i := 0 to |QUEUE_DELAYS|
        invariant topology == WithQueues(old(topology), i)
      {
        var delay := QUEUE_DELAYS[i];
        DeclareQueue(RetryQueue(delay), Some(Send));
        Bind(RetryQueue(delay), Retry(delay));
      }
      if PartOfDeclared(old(topology)) {
        DeclaringIsIdempotent(old(topology));
      }
    }

    method Publish(key: Key, slot: Slot, up: bool) returns (ok: bool)
      modifies this`slots
      ensures ok == up
      ensures slots == if up then Published(topology, old(slots), key, slot) else old(slots)
    {
      if up {
        slots := slots + [slot.(place := Route(topology, key))];
      }
      ok := up;
    }

    method Ack(i: nat, end: End, up: bool) returns (ok: bool)
      requires i < |slots|
      modifies this`slots
      ensures ok == up
      ensures slots == if up then Move(old(slots), i, Settled(end)) else old(slots)
    {
      if up {
        slots := slots[i := slots[i].(place := Settled(end))];
      }
      ok := up;
    }

    method Reject(i: nat, up: bool) returns (ok: bool)
      requires i < |slots|
      modifies this`slots
      ensures ok == up
      ensures slots == Rejected(topology, old(slots), i, up)
    {
      if up {
        slots := slots[i := slots[i].(place := DeadLetter(topology, Primary))];
      }
      ok := up;
    }

    /** Sending failed: the next attempt is published before the message is acknowledged. */
    method PassOn(i: nat, job: Job, up: Calls) returns (ok: bool)
      requires i < |slots| && slots[i].place == Held(Received) && FromBytes(slots[i].body) == Some(job)
      modifies this`slots
      ensures slots == HandleFailed(topology, old(slots), i, up)
      ensures ok <==> !slots[i].place.Held?
    {
      var key, next;
      if job.attempts >= |RETRY_DELAYS| {
        key, next := Dead, job;
      } else {
        key, next := Retry(RETRY_DELAYS[job.attempts]), job.(attempts := job.attempts + 1);
      }
      var copy := slots[i].(body := Fields(next));
      ok := Publish(key, copy, up.publish);
      if ok {
        slots := slots[i := slots[i].(place := Held(Forwarded))];
        ok := Ack(i, Replaced, up.ack);
      }
      if !ok {
        ok := Reject(i, up.reject);
      }
    }

    /** `raised`: the worker's callback ends with an exception and the message stays unacknowledged. */
    method HandleMessage(i: nat, now: int, smtp: Smtp, up: Calls) returns (raised: bool)
      requires i < |slots| && slots[i].place == Held(Received)
      modifies this`slots
      ensures slots == Handle(topology, old(slots), i, now, smtp, up)
      ensures raised <==> slots[i].place.Held?
      ensures topology == DECLARED ==> Outcome(old(slots), slots, i, now, smtp, up)
    {
      HandleHasOutcome(slots, i, now, smtp, up);
      var ok;
      var parsed := FromBytes(slots[i].body);
      if parsed.None? {
        ok := Reject(i, up.reject);
        return !ok;
      }
      var job := parsed.value;
      if job.expiresAt <= now {
        ok := Ack(i, Expired, up.ack);
        return !ok;
      }
      match smtp {
        case Refused =>
          ok := Reject(i, up.reject);
          return !ok;
        case Failed =>
          ok := PassOn(i, job, up);
          return !ok;
        case Accepted =>
          slots := slots[i := slots[i].(place := Held(Mailed))];
          ok := Ack(i, Sent, up.ack);
          return !ok;
      }
    }
  }

  datatype PublishError = ServiceUnavailable | BrokerFailed

  /** The producers' side: every publication declares the topology first. */
  class EmailPublisher {
    const connection: Option<Broker>

    constructor (connection: Option<Broker>)
      ensures this.connection == connection
    {
      this.connection := connection;
    }

    /** A job that was published waits in the primary queue, whether or not a worker declared it before. */
    method Publish(job: Job, drawn: string, channelUp: bool, declareUp: bool, publishUp: bool)
      returns (r: Result<Slot, PublishError>)
      modifies if connection.Some? then {connection.value} else {}
      ensures r == Err(ServiceUnavailable) <==> connection.None?
      ensures r.Ok? <==> connection.Some? && channelUp && declareUp && publishUp
      ensures r.Err? && connection.Some? ==> connection.value.slots == old(connection.value.slots)
      ensures connection.Some? ==>
                connection.value.topology ==
                if channelUp && declareUp then WithQueues(old(connection.value.topology), |QUEUE_DELAYS|)
                else old(connection.value.topology)
      ensures r.Ok? && PartOfDeclared(old(connection.value.topology)) ==> connection.value.topology == DECLARED
      ensures r.Ok? ==>
                && connection.value.slots == old(connection.value.slots) + [r.value]
                && r.value.place == In(Primary) && r.value.body == ToBytes(job, drawn)
                && r.value.born == job.attempts && r.value.deliveries == 0
    {
      if connection.None? {
        return Err(ServiceUnavailable);
      }
      var broker := connection.value;
      if !channelUp || !declareUp {
        return Err(BrokerFailed);
      }
      broker.DeclareTopology();
      SendIsBound(old(broker.topology), |QUEUE_DELAYS|);
      var ok := broker.Publish(Send, Slot(ToBytes(job, drawn), In(Primary), job.attempts, 0), publishUp);
      if !ok {
        return Err(BrokerFailed);
      }
      r := Ok(broker.slots[|broker.slots| - 1]);
    }
  }

  /** After the declaration the publisher's key leads to the primary queue, whatever was there before. */
  lemma {:induction false} SendIsBound(t: Topology, n: nat)
    requires n <= |QUEUE_DELAYS|
    ensures Route(WithQueues(t, n), Send) == In(Primary)
  {
    if n > 0 {
      SendIsBound(t, n - 1);
    }
  }
}
