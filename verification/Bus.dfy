/** The offset log of the plain bus, twice: the service's own event list with an
    id cursor per consumer (internal/bus/service.go, memory branch), and the Kafka
    client's in-process buffer with an index per consumer (internal/bus/kafka.go).

    Both are a log and a position per consumer; Log is that, and both classes are
    proved against it. */
module Bus {
  import opened Consumers

  // ---- The specification ---------------------------------------------------------------

  datatype Log<P> = Log(entries: seq<P>, positions: map<string, nat>)

  function Position<P>(log: Log<P>, consumer: string): nat {
    if consumer in log.positions then log.positions[consumer] else 0
  }

  ghost predicate WithinLog<P>(log: Log<P>) {
    forall c | c in log.positions :: log.positions[c] <= |log.entries|
  }

  function Produced<P>(log: Log<P>, payload: P): Log<P> {
    log.(entries := log.entries + [payload])
  }

  function BatchEnd<P>(log: Log<P>, consumer: string, max: nat): nat {
    var start := Position(log, consumer);
    if start + max > |log.entries| then |log.entries| else start + max
  }

  /** The next at most max entries the consumer has not had. */
  function Batch<P>(log: Log<P>, consumer: string, max: nat): seq<P> {
    var start, end := Position(log, consumer), BatchEnd(log, consumer, max);
    if start <= end then log.entries[start..end] else []
  }

  function Consumed<P>(log: Log<P>, consumer: string, max: nat): Log<P> {
    if Batch(log, consumer, max) == [] then log
    else log.(positions := log.positions[consumer := BatchEnd(log, consumer, max)])
  }

  // ---- Whole runs ----------------------------------------------------------------------

  datatype Call<P> = Produce(payload: P) | Consume(consumer: string, max: nat)

  function Step<P>(log: Log<P>, call: Call<P>): Log<P> {
    match call
    case Produce(p) => Produced(log, p)
    case Consume(c, max) => Consumed(log, c, max)
  }

  function After<P>(log: Log<P>, calls: seq<Call<P>>): Log<P> {
    if calls == [] then log else Step(After(log, calls[..|calls| - 1]), calls[|calls| - 1])
  }

  function Sent<P>(calls: seq<Call<P>>): seq<P> {
    if calls == [] then [] else
      var call := calls[|calls| - 1];
      Sent(calls[..|calls| - 1]) + (if call.Produce? then [call.payload] else [])
  }

  /** Everything one consumer received over the run, in the order of receipt. */
  function Received<P>(log: Log<P>, calls: seq<Call<P>>, consumer: string): seq<P> {
    if calls == [] then [] else
      var before := calls[..|calls| - 1];
      var call := calls[|calls| - 1];
      Received(log, before, consumer)
        + (if call.Consume? && call.consumer == consumer then Batch(After(log, before), consumer, call.max) else [])
  }

  const EmptyPositions: map<string, nat> := map[]

  function Empty<P>(): Log<P> { Log([], EmptyPositions) }

  /** Exactly once, in order: what a consumer has received is the log up to its
      position, and the log is what was produced. */
  lemma {:induction false} ReceivedIsPrefix<P>(calls: seq<Call<P>>, consumer: string)
    ensures var log := After(Empty<P>(), calls);
            && log.entries == Sent(calls)
            && WithinLog(log)
            && Position(log, consumer) <= |log.entries|
            && Received(Empty<P>(), calls, consumer) == log.entries[..Position(log, consumer)]
  {
    if calls != [] {
      var before, call := calls[..|calls| - 1], calls[|calls| - 1];
      ReceivedIsPrefix(before, consumer);
      var log := After(Empty<P>(), before);
      StepReceives(log, call, consumer);
    }
  }

  lemma StepReceives<P>(log: Log<P>, call: Call<P>, consumer: string)
    requires WithinLog(log)
    ensures var log' := Step(log, call);
            && WithinLog(log') && log.entries <= log'.entries
            && log'.entries[..Position(log', consumer)] ==
               log.entries[..Position(log, consumer)]
                 + (if call.Consume? && call.consumer == consumer then Batch(log, consumer, call.max) else [])
  {
    var log' := Step(log, call);
    if call.Consume? && call.consumer == consumer {
      var start, end := Position(log, consumer), BatchEnd(log, consumer, call.max);
      assert log.entries[..start] + log.entries[start..end] == log.entries[..end];
    } else if call.Produce? {
      assert log'.entries[..Position(log, consumer)] == log.entries[..Position(log, consumer)];
    }
  }

  // ---- The service: events with ids, last id per consumer -------------------------------

  datatype Event<P> = Event(id: nat, payload: P)

  function Payloads<P>(events: seq<Event<P>>): (ps: seq<P>)
    ensures |ps| == |events| && forall i | 0 <= i < |events| :: ps[i] == events[i].payload
  {
    seq(|events|, i requires 0 <= i < |events| => events[i].payload)
  }

  /** The loop of Consume: at most max events with ids above the last one consumed. */
  method EventsAfter<P>(log: seq<Event<P>>, last: nat, max: nat) returns (out: seq<Event<P>>)
    requires last <= |log| && forall i | 0 <= i < |log| :: log[i].id == i + 1
    ensures out == log[last..if last + max > |log| then |log| else last + max]
  {
    out := [];
    var i := 0;
    while i < |log| && |out| < max
      invariant 0 <= i <= |log|
      invariant out == if i <= last then [] else log[last..i]
      invariant |out| <= max
    {
      if log[i].id > last {
        out := out + [log[i]];
      }
      i := i + 1;
    }
  }

  lemma PayloadsSlice<P>(log: seq<Event<P>>, from: nat, to: nat)
    requires from <= to <= |log|
    ensures Payloads(log[from..to]) == Payloads(log)[from..to]
  {
  }

  class Service<P> {
    var events: map<string, seq<Event<P>>>
    var offsets: map<string, map<string, nat>>

    function EventsOf(objectId: string): seq<Event<P>>
      reads this
    {
      if objectId in events then events[objectId] else []
    }

    function OffsetsOf(objectId: string): map<string, nat>
      reads this
    {
      if objectId in offsets then offsets[objectId] else map[]
    }

    function View(objectId: string): Log<P>
      reads this
    {
      Log(Payloads(EventsOf(objectId)), OffsetsOf(objectId))
    }

    /** Ids are dense from 1, and no offset is beyond the log. */
    ghost predicate Valid(objectId: string)
      reads this
    {
      && (forall i | 0 <= i < |EventsOf(objectId)| :: EventsOf(objectId)[i].id == i + 1)
      && WithinLog(View(objectId))
    }

    constructor ()
      ensures forall objectId :: Valid(objectId) && View(objectId) == Empty<P>()
    {
      events, offsets := map[], map[];
    }

    method Produce(objectId: string, payload: P) returns (e: Event<P>)
      requires Valid(objectId)
      modifies this
      ensures Valid(objectId) && View(objectId) == Produced(old(View(objectId)), payload)
      ensures e.payload == payload && e.id == |old(View(objectId)).entries| + 1
      ensures forall other | other != objectId :: View(other) == old(View(other))
      ensures forall other | old(Valid(other)) :: Valid(other)
    {
      var id := |EventsOf(objectId)| + 1;
      e := Event(id, payload);
      events := events[objectId := EventsOf(objectId) + [e]];
      assert View(objectId).entries == old(View(objectId)).entries + [payload];
    }

    method Consume(objectId: string, consumer: string, max: int) returns (out: seq<Event<P>>)
      requires Valid(objectId)
      modifies this
      ensures var name, n := ConsumerName(consumer), BatchSize(max);
              && Payloads(out) == Batch(old(View(objectId)), name, n)
              && View(objectId) == Consumed(old(View(objectId)), name, n)
      ensures Valid(objectId)
      ensures forall other | other != objectId :: View(other) == old(View(other))
      ensures forall other | old(Valid(other)) :: Valid(other)
    {
      var name, n := ConsumerName(consumer), BatchSize(max);
      var log := EventsOf(objectId);
      var offs: map<string, nat> := OffsetsOf(objectId);
      var last := if name in offs then offs[name] else 0;
      out := EventsAfter(log, last, n);
      ghost var end := BatchEnd(View(objectId), name, n);
      assert out == log[last..end];
      PayloadsSlice(log, last, end);
      if |out| > 0 {
        offs := offs[name := out[|out| - 1].id];
        offsets := offsets[objectId := offs];
      }
    }
  }

  // ---- The Kafka client: raw messages, next index per consumer ---------------------------

  class KafkaClient<P> {
    var topics: map<string, seq<P>>
    var offsets: map<string, map<string, nat>>

    function View(topic: string): Log<P>
      reads this
    {
      Log(if topic in topics then topics[topic] else [], if topic in offsets then offsets[topic] else map[])
    }

    constructor ()
      ensures forall topic :: View(topic) == Empty<P>()
    {
      topics, offsets := map[], map[];
    }

    method Produce(topic: string, payload: P)
      modifies this
      ensures View(topic) == Produced(old(View(topic)), payload)
      ensures forall other | other != topic :: View(other) == old(View(other))
    {
      topics := topics[topic := (if topic in topics then topics[topic] else []) + [payload]];
    }

    /** Asked for none, the client returns none and the position stays where it is. */
    method Consume(topic: string, consumer: string, max: nat) returns (out: seq<P>)
      requires WithinLog(View(topic))
      modifies this
      ensures out == Batch(old(View(topic)), consumer, max) && WithinLog(View(topic))
      ensures max > 0 ==> View(topic) == Consumed(old(View(topic)), consumer, max)
      ensures View(topic).entries == old(View(topic)).entries
      ensures forall c :: Position(View(topic), c) == Position(Consumed(old(View(topic)), consumer, max), c)
      ensures forall other | other != topic :: View(other) == old(View(other))
    {
      var offs: map<string, nat> := if topic in offsets then offsets[topic] else map[];
      offsets := offsets[topic := offs];
      var start := if consumer in offs then offs[consumer] else 0;
      var msgs := if topic in topics then topics[topic] else [];
      if start >= |msgs| {
        return [];
      }
      var end := start + max;
      if end > |msgs| {
        end := |msgs|;
      }
      out := msgs[start..end];
      offsets := offsets[topic := offs[consumer := end]];
    }
  }

  /** A request as it reaches the service: the consumer may be unnamed, max anything. */
  datatype Request<P> = Send(payload: P) | Receive(consumer: string, max: int)

  /** Whatever calls are made, the two implementations hand a consumer the same
      payloads: both views follow Step, and start empty. The service fills in the
      defaults of a request before it passes it on to Kafka. */
  method Mirror<P>(bus: Service<P>, kafka: KafkaClient<P>, objectId: string, topic: string, requests: seq<Request<P>>)
    returns (fromBus: seq<seq<P>>, fromKafka: seq<seq<P>>)
    requires bus.Valid(objectId) && bus.View(objectId) == kafka.View(topic)
    modifies bus, kafka
    ensures fromBus == fromKafka
    ensures bus.View(objectId) == kafka.View(topic)
  {
    fromBus, fromKafka := [], [];
    for i := 0 to |requests|
      invariant bus.Valid(objectId) && bus.View(objectId) == kafka.View(topic)
      invariant fromBus == fromKafka
    {
      match requests[i] {
        case Send(p) =>
          var e := bus.Produce(objectId, p);
          kafka.Produce(topic, p);
        case Receive(c, max) =>
          var events := bus.Consume(objectId, c, max);
          var msgs := kafka.Consume(topic, ConsumerName(c), BatchSize(max));
          fromBus, fromKafka := fromBus + [Payloads(events)], fromKafka + [msgs];
      }
    }
  }
}
