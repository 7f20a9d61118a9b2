/** The service called one call at a time is the protocol without overlap: every
    sequence of successful calls is a run, so all that is proved of runs holds of it. */
module ServiceRuns {
  import opened Wrappers
  import opened Consumers
  import opened AgentKeys
  import opened Crypto
  import opened Policy
  import opened Filter
  import opened Topic
  import opened Protocol
  import opened ProtocolSafety
  import opened SecureBus
  import opened SecureBusRuns

  /** A successful call, with what the outside and the map order decided in it. */
  datatype Success =
    | Register(key: Key)
    | Revoke(keyId: string, at: int)
    | PutPolicy(document: Document, hash: string, now: int)
    | Publish(input: PublishInput, now: int, stamp: string, agent: Option<string>)
    | Attest(attestInput: AttestInput, now: int, stamp: string, agent: Option<string>)
    | Consume(consumer: string, condition: string, adHoc: Option<Condition>, max: int, views: seq<MessageView>)

  predicate MayAnswerFor(t: Topic, version: int, keyId: string, agent: Option<string>) {
    var p := PolicyWithVersion(t.policies, version);
    p.Some? ==> MayAnswer(p.value.document, keyId, agent)
  }

  predicate CanPublish(cfg: Config, s: System, input: PublishInput, now: int, stamp: string, agent: Option<string>) {
    && s.topic.policies != [] && MayAnswerFor(s.topic, input.policyVersion, input.keyId, agent)
    && PublishOutcome(cfg, s.topic, s.keys, input, now, stamp, agent).Ok?
  }

  predicate CanAttest(cfg: Config, s: System, input: AttestInput, now: int, stamp: string, agent: Option<string>) {
    && s.topic.policies != [] && MayAnswerFor(s.topic, input.policyVersion, input.keyId, agent)
    && AttestOutcome(cfg, s.topic, s.keys, input, now, stamp, agent).Ok?
  }

  predicate CanConsume(s: System, condition: string, adHoc: Option<Condition>, views: seq<MessageView>) {
    && s.topic.policies != [] && AreViews(Newest(s.topic).document, s.topic, views)
    && ResolveCondition(Newest(s.topic).document, condition, adHoc).Some?
  }

  /** When the call succeeds. */
  predicate Succeeds(cfg: Config, s: System, c: Success) {
    match c
    case Register(key) => key.keyId !in s.keys && key.revokedAt == None
    case Revoke(keyId, _) => keyId in s.keys
    case PutPolicy(document, _, _) => Installable(cfg, s.keys, document)
    case Publish(input, now, stamp, agent) => CanPublish(cfg, s, input, now, stamp, agent)
    case Attest(input, now, stamp, agent) => CanAttest(cfg, s, input, now, stamp, agent)
    case Consume(_, condition, adHoc, _, views) => CanConsume(s, condition, adHoc, views)
  }

  /** What it leaves behind. */
  function AfterSuccess(cfg: Config, s: System, c: Success): System
    requires Succeeds(cfg, s, c)
  {
    match c
    case Register(key) => s.(keys := s.keys[key.keyId := key])
    case Revoke(keyId, at) => s.(keys := s.keys[keyId := s.keys[keyId].(revokedAt := Some(at))])
    case PutPolicy(document, hash, now) => AfterInstall(s, document, hash, now)
    case Publish(input, now, stamp, agent) =>
      AfterPublish(s, PublishOutcome(cfg, s.topic, s.keys, input, now, stamp, agent).value)
    case Attest(input, now, stamp, agent) =>
      AfterAttest(s, AttestOutcome(cfg, s.topic, s.keys, input, now, stamp, agent).value)
    case Consume(consumer, condition, adHoc, max, views) =>
      var cond := ResolveCondition(Newest(s.topic).document, condition, adHoc).value;
      var name := ConsumerName(consumer);
      AfterBatch(s, name, Consumed(s.topic, name, cond, views, BatchSize(max)))
  }

  /** The calls, one after the other, lead from s to s'. */
  predicate Calls(cfg: Config, s: System, calls: seq<Success>, s': System)
    decreases |calls|
  {
    if calls == [] then s == s'
    else Succeeds(cfg, s, calls[0]) && Calls(cfg, AfterSuccess(cfg, s, calls[0]), calls[1..], s')
  }

  // ---- Each call ------------------------------------------------------------------------

  lemma AttestRuns(cfg: Config, s: System, input: AttestInput, now: int, stamp: string, agent: Option<string>)
      returns (steps: seq<Step>)
    requires s.calls == map[] && CanAttest(cfg, s, input, now, stamp, agent)
    ensures Run(cfg, s, steps, AfterAttest(s, AttestOutcome(cfg, s.topic, s.keys, input, now, stamp, agent).value))
  {
    AttestOutcomeChecked(cfg, s, input, now, stamp, agent);
    var p := PolicyWithVersion(s.topic.policies, input.policyVersion).value;
    var m := FindMessage(s.topic.messages, input.messageId).value;
    var draft := AttestOutcome(cfg, s.topic, s.keys, input, now, stamp, agent).value;
    CheckedAttestRuns(cfg, s, 0, input, now, stamp, agent.value, p, m, draft);
    steps := AttestSteps(0, input, now, stamp, agent.value);
  }

  lemma PublishRuns(cfg: Config, s: System, input: PublishInput, now: int, stamp: string, agent: Option<string>)
      returns (steps: seq<Step>)
    requires s.calls == map[] && CanPublish(cfg, s, input, now, stamp, agent)
    ensures Run(cfg, s, steps, AfterPublish(s, PublishOutcome(cfg, s.topic, s.keys, input, now, stamp, agent).value))
  {
    var s' := AfterPublish(s, PublishOutcome(cfg, s.topic, s.keys, input, now, stamp, agent).value);
    PublishThen(cfg, s, 0, input, now, stamp, agent, [], s');
    steps := PublishSteps(0, input, now, stamp, agent.value) + [];
  }

  /** A successful call is a run of the protocol that leaves no call in flight. */
  lemma CallIsRun(cfg: Config, s: System, c: Success) returns (steps: seq<Step>)
    requires s.calls == map[] && Succeeds(cfg, s, c)
    ensures Run(cfg, s, steps, AfterSuccess(cfg, s, c)) && AfterSuccess(cfg, s, c).calls == map[]
  {
    match c
    case Register(key) =>
      RegisterIsRun(cfg, s, key);
      steps := [RegisterKey(key)];
    case Revoke(keyId, at) =>
      RevokeIsRun(cfg, s, keyId, at);
      steps := [RevokeKey(keyId, at)];
    case PutPolicy(document, hash, now) =>
      PutPolicyIsRun(cfg, s, 0, document, hash, now);
      steps := InstallSteps(0, document, hash, now);
    case Publish(input, now, stamp, agent) =>
      steps := PublishRuns(cfg, s, input, now, stamp, agent);
    case Attest(input, now, stamp, agent) =>
      steps := AttestRuns(cfg, s, input, now, stamp, agent);
    case Consume(consumer, condition, adHoc, max, views) =>
      var cond := ResolveCondition(Newest(s.topic).document, condition, adHoc).value;
      ConsumeIsRun(cfg, s, 0, consumer, condition, adHoc, max, cond, views);
      steps := ConsumeSteps(0, consumer, condition, adHoc, max, views);
  }

  lemma RunHead(cfg: Config, s: System, steps: seq<Step>, s': System)
    requires steps != [] && Run(cfg, s, steps, s')
    ensures Enabled(cfg, s, steps[0]) && Run(cfg, Apply(cfg, s, steps[0]), steps[1..], s')
  {
  }

  lemma HeadAndRest(first: seq<Step>, second: seq<Step>)
    requires first != []
    ensures [first[0]] + (first[1..] + second) == first + second
  {
  }

  lemma {:induction false} RunJoined(cfg: Config, s: System, first: seq<Step>, mid: System, second: seq<Step>,
      s': System)
    requires Run(cfg, s, first, mid) && Run(cfg, mid, second, s')
    ensures Run(cfg, s, first + second, s')
    decreases |first|
  {
    if first == [] {
      assert first + second == second;
    } else {
      RunHead(cfg, s, first, mid);
      RunJoined(cfg, Apply(cfg, s, first[0]), first[1..], mid, second, s');
      RunCons(cfg, s, first[0], first[1..] + second, s');
      HeadAndRest(first, second);
    }
  }

  /** Any sequence of successful calls is a run of the protocol. */
  lemma {:induction false} CallsAreRun(cfg: Config, s: System, calls: seq<Success>, s': System)
      returns (steps: seq<Step>)
    requires s.calls == map[] && Calls(cfg, s, calls, s')
    ensures Run(cfg, s, steps, s')
    decreases |calls|
  {
    if calls == [] {
      steps := [];
    } else {
      var mid := AfterSuccess(cfg, s, calls[0]);
      var first := CallIsRun(cfg, s, calls[0]);
      var second := CallsAreRun(cfg, mid, calls[1..], s');
      RunJoined(cfg, s, first, mid, second, s');
      steps := first + second;
    }
  }

  /** So the service, however it is used, is always in a safe state, and Verify passes on
      every message it ever stored. */
  lemma CallsKeepVerifying(cfg: Config, calls: seq<Success>, s: System, id: int)
    requires HashesNonEmpty(cfg.scheme) && Calls(cfg, Start, calls, s) && 1 <= id <= |s.topic.messages|
    ensures Safe(cfg, s) && FindMessage(s.topic.messages, id) == Some(s.topic.messages[id - 1])
    ensures Passes(Verified(cfg.scheme, s.keys, s.topic, s.topic.messages[id - 1]))
  {
    var steps := CallsAreRun(cfg, Start, calls, s);
    ReachableSafe(cfg, steps, s);
    VerifyPasses(cfg, s, id);
  }
}
