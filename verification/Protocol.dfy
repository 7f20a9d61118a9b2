/** The secure bus as a protocol: any number of calls in flight, each critical
    section one step, interleaved in any order with key registration and
    revocation.

    Publish and Attest read the signing key, the current policy, the claimed
    policy version and (Attest) the message in separate critical sections before
    the locked append; Consume reads the policy before its locked loop; PutPolicy
    checks the agent keys before its locked append. A call that fails simply
    leaves (Abort), at any point. */
module Protocol {
  import opened Wrappers
  import opened Crypto
  import opened AgentKeys
  import opened Policy
  import opened Filter
  import opened Topic
  import opened Consumers

  datatype Config = Config(objectId: string, scheme: Scheme, grace: int)

  /** How far a call has got. "current" is the newest policy version at the moment
      acceptPolicyVersion let the call pass. */
  datatype PublishStage =
    | KeyRead
    | Accepted(current: int)
    | Ready(current: int, policy: SignedPolicy, draft: Message)

  datatype AttestStage =
    | AKeyRead
    | AAccepted(current: int)
    | ALoaded(current: int, policy: SignedPolicy)
    | AReady(current: int, policy: SignedPolicy, draft: Attestation)

  datatype Call =
    | Publishing(input: PublishInput, key: Key, stage: PublishStage)
    | Attesting(attestInput: AttestInput, key: Key, attestStage: AttestStage)
    | Consuming(consumer: string, document: Document, cond: Condition, max: nat)
    | Installing(document: Document)

  /** The shared state, the calls in flight, and three history variables: the
      message ids handed to each consumer, and for every stored message and
      attestation the newest policy version when its policy was checked. */
  datatype System = System(
    keys: map<string, Key>,
    topic: Topic,
    calls: map<nat, Call>,
    handed: map<string, seq<nat>>,
    messageChecks: seq<int>,
    attestChecks: seq<int>)

  datatype Step =
    | RegisterKey(key: Key)
    | RevokeKey(keyId: string, at: int)
    | BeginPublish(call: nat, input: PublishInput)
    | AcceptForPublish(call: nat, now: int)
    | LoadForPublish(call: nat, agent: string, stamp: string)
    | StoreMessage(call: nat)
    | BeginAttest(call: nat, attestInput: AttestInput)
    | AcceptForAttest(call: nat, now: int)
    | LoadForAttest(call: nat, agent: string)
    | ReadMessage(call: nat, stamp: string)
    | StoreAttestation(call: nat)
    | BeginConsume(call: nat, consumer: string, condition: string, adHoc: Option<Condition>, requested: int)
    | FinishConsume(call: nat, views: seq<MessageView>)
    | BeginInstall(call: nat, document: Document)
    | StorePolicy(call: nat, hash: string, now: int)
    | Abort(call: nat)

  const Start := System(map[], EmptyTopic, map[], map[], [], [])

  function Utf8Length(s: string): nat {
    if s == "" then 0 else
      var o := s[0] as int;
      (if o < 0x80 then 1 else if o < 0x800 then 2 else if o < 0x10000 then 3 else 4) + Utf8Length(s[1..])
  }

  function CommentLimit(doc: Document): int {
    if doc.commentMaxBytes == 0 then 4096 else doc.commentMaxBytes
  }

  function Newest(t: Topic): SignedPolicy
    requires t.policies != []
  {
    t.policies[|t.policies| - 1]
  }

  function HandedTo(s: System, consumer: string): seq<nat> {
    if consumer in s.handed then s.handed[consumer] else []
  }

  predicate PublishingAt(s: System, call: nat) { call in s.calls && s.calls[call].Publishing? }
  predicate AttestingAt(s: System, call: nat) { call in s.calls && s.calls[call].Attesting? }
  predicate ConsumingAt(s: System, call: nat) { call in s.calls && s.calls[call].Consuming? }
  predicate InstallingAt(s: System, call: nat) { call in s.calls && s.calls[call].Installing? }

  function Without(calls: map<nat, Call>, call: nat): map<nat, Call> { calls - {call} }

  // ---- The steps of Publish ---------------------------------------------------------

  predicate MayUseKey(s: System, keyId: string, subjectKey: string, tokenId: string) {
    keyId in s.keys && BelongsToCaller(s.keys[keyId], subjectKey, tokenId)
  }

  predicate CanAcceptForPublish(cfg: Config, s: System, call: nat, now: int) {
    && PublishingAt(s, call) && s.calls[call].stage.KeyRead? && s.topic.policies != []
    && AcceptPolicyVersion(Newest(s.topic), s.calls[call].input.policyVersion, s.calls[call].input.policyHash, now,
      cfg.grace)
  }

  function DoAcceptForPublish(s: System, call: nat): System
    requires PublishingAt(s, call) && s.topic.policies != []
  {
    s.(calls := s.calls[call := s.calls[call].(stage := Accepted(Newest(s.topic).version))])
  }

  predicate CanLoadForPublish(cfg: Config, s: System, call: nat, agent: string, stamp: string) {
    && PublishingAt(s, call) && s.calls[call].stage.Accepted?
    && var c := s.calls[call];
    && var p := PolicyWithVersion(s.topic.policies, c.input.policyVersion);
    && p.Some?
    && NamesKey(p.value.document, c.input.keyId, agent, true) && May(p.value.document, ToPublish, agent)
    && var draft := DraftMessage(cfg.scheme, cfg.objectId, c.input, stamp);
    && SignedBy(cfg.scheme, c.key, draft.signature, EnvelopeOf(draft))
  }

  function DoLoadForPublish(cfg: Config, s: System, call: nat, agent: string, stamp: string): System
    requires CanLoadForPublish(cfg, s, call, agent, stamp)
  {
    var c := s.calls[call];
    var p := PolicyWithVersion(s.topic.policies, c.input.policyVersion).value;
    var draft := DraftMessage(cfg.scheme, cfg.objectId, c.input, stamp);
    s.(calls := s.calls[call := c.(stage := Ready(c.stage.current, p, draft))])
  }

  predicate CanStoreMessage(cfg: Config, s: System, call: nat) {
    && PublishingAt(s, call) && s.calls[call].stage.Ready?
    && var c := s.calls[call];
    && ChainMessage(cfg.scheme, s.topic, c.stage.policy.document.chain, c.key, c.stage.draft).Ok?
  }

  function DoStoreMessage(cfg: Config, s: System, call: nat): System
    requires CanStoreMessage(cfg, s, call)
  {
    var c := s.calls[call];
    var m := ChainMessage(cfg.scheme, s.topic, c.stage.policy.document.chain, c.key, c.stage.draft).value;
    s.(topic := AppendMessage(s.topic, m), calls := Without(s.calls, call),
       messageChecks := s.messageChecks + [c.stage.current])
  }

  // ---- The steps of Attest ----------------------------------------------------------

  predicate CanAcceptForAttest(cfg: Config, s: System, call: nat, now: int) {
    && AttestingAt(s, call) && s.calls[call].attestStage.AKeyRead? && s.topic.policies != []
    && AcceptPolicyVersion(Newest(s.topic), s.calls[call].attestInput.policyVersion, "", now, cfg.grace)
  }

  function DoAcceptForAttest(s: System, call: nat): System
    requires AttestingAt(s, call) && s.topic.policies != []
  {
    s.(calls := s.calls[call := s.calls[call].(attestStage := AAccepted(Newest(s.topic).version))])
  }

  predicate CanLoadForAttest(s: System, call: nat, agent: string) {
    && AttestingAt(s, call) && s.calls[call].attestStage.AAccepted?
    && var c := s.calls[call];
    && var p := PolicyWithVersion(s.topic.policies, c.attestInput.policyVersion);
    && p.Some?
    && NamesKey(p.value.document, c.attestInput.keyId, agent, true) && May(p.value.document, ToAttest, agent)
    && (c.attestInput.status == "ok" || c.attestInput.status == "deny")
    && Utf8Length(c.attestInput.comment) <= CommentLimit(p.value.document)
  }

  function DoLoadForAttest(s: System, call: nat, agent: string): System
    requires CanLoadForAttest(s, call, agent)
  {
    var c := s.calls[call];
    var p := PolicyWithVersion(s.topic.policies, c.attestInput.policyVersion).value;
    s.(calls := s.calls[call := c.(attestStage := ALoaded(c.attestStage.current, p))])
  }

  predicate CanReadMessage(cfg: Config, s: System, call: nat, stamp: string) {
    && AttestingAt(s, call) && s.calls[call].attestStage.ALoaded?
    && var c := s.calls[call];
    && var m := FindMessage(s.topic.messages, c.attestInput.messageId);
    && m.Some?
    && var draft := DraftAttestation(cfg.objectId, c.attestInput, m.value.hash, stamp);
    && SignedBy(cfg.scheme, c.key, draft.signature, AttestedEnvelope(draft))
  }

  function DoReadMessage(cfg: Config, s: System, call: nat, stamp: string): System
    requires CanReadMessage(cfg, s, call, stamp)
  {
    var c := s.calls[call];
    var m := FindMessage(s.topic.messages, c.attestInput.messageId).value;
    var draft := DraftAttestation(cfg.objectId, c.attestInput, m.hash, stamp);
    s.(calls := s.calls[call := c.(attestStage := AReady(c.attestStage.current, c.attestStage.policy, draft))])
  }

  predicate CanStoreAttestation(s: System, call: nat) {
    AttestingAt(s, call) && s.calls[call].attestStage.AReady?
  }

  function DoStoreAttestation(s: System, call: nat): System
    requires CanStoreAttestation(s, call)
  {
    var c := s.calls[call];
    s.(topic := AppendAttestation(s.topic, c.attestStage.draft), calls := Without(s.calls, call),
       attestChecks := s.attestChecks + [c.attestStage.current])
  }

  // ---- The steps of Consume and PutPolicy -------------------------------------------

  predicate CanBeginConsume(s: System, call: nat, condition: string, adHoc: Option<Condition>) {
    && call !in s.calls && s.topic.policies != []
    && ResolveCondition(Newest(s.topic).document, condition, adHoc).Some?
  }

  function DoBeginConsume(s: System, call: nat, consumer: string, condition: string, adHoc: Option<Condition>,
      requested: int): System
    requires CanBeginConsume(s, call, condition, adHoc)
  {
    var doc := Newest(s.topic).document;
    var cond := ResolveCondition(doc, condition, adHoc).value;
    s.(calls := s.calls[call := Consuming(ConsumerName(consumer), doc, cond, BatchSize(requested))])
  }

  predicate CanFinishConsume(s: System, call: nat, views: seq<MessageView>) {
    ConsumingAt(s, call) && AreViews(s.calls[call].document, s.topic, views)
  }

  function DoFinishConsume(s: System, call: nat, views: seq<MessageView>): System
    requires CanFinishConsume(s, call, views)
  {
    var c := s.calls[call];
    var q := Consumed(s.topic, c.consumer, c.cond, views, c.max);
    s.(topic := AfterConsume(s.topic, c.consumer, q), calls := Without(s.calls, call),
       handed := s.handed[c.consumer := HandedTo(s, c.consumer) + HandedIds(q.out)])
  }

  predicate CanInstall(cfg: Config, s: System, document: Document) {
    && ValidDocument(document) && document.topicId == cfg.objectId
    && forall n | n in document.agents :: document.agents[n].keyId in s.keys
  }

  function DoStorePolicy(s: System, call: nat, hash: string, now: int): System
    requires InstallingAt(s, call)
  {
    s.(topic := AppendPolicy(s.topic, s.calls[call].document, hash, now), calls := Without(s.calls, call))
  }

  // ---- Runs -------------------------------------------------------------------------

  /** When a step may happen: the checks the code makes at that point. */
  predicate Enabled(cfg: Config, s: System, step: Step) {
    match step
    case RegisterKey(key) => key.keyId !in s.keys && key.revokedAt == None
    case RevokeKey(keyId, _) => keyId in s.keys
    case BeginPublish(call, input) => call !in s.calls && MayUseKey(s, input.keyId, input.subjectKey, input.tokenId)
    case AcceptForPublish(call, now) => CanAcceptForPublish(cfg, s, call, now)
    case LoadForPublish(call, agent, stamp) => CanLoadForPublish(cfg, s, call, agent, stamp)
    case StoreMessage(call) => CanStoreMessage(cfg, s, call)
    case BeginAttest(call, input) => call !in s.calls && MayUseKey(s, input.keyId, input.subjectKey, input.tokenId)
    case AcceptForAttest(call, now) => CanAcceptForAttest(cfg, s, call, now)
    case LoadForAttest(call, agent) => CanLoadForAttest(s, call, agent)
    case ReadMessage(call, stamp) => CanReadMessage(cfg, s, call, stamp)
    case StoreAttestation(call) => CanStoreAttestation(s, call)
    case BeginConsume(call, _, condition, adHoc, _) => CanBeginConsume(s, call, condition, adHoc)
    case FinishConsume(call, views) => CanFinishConsume(s, call, views)
    case BeginInstall(call, document) => call !in s.calls && CanInstall(cfg, s, document)
    case StorePolicy(call, _, _) => InstallingAt(s, call)
    case Abort(call) => call in s.calls
  }

  function Apply(cfg: Config, s: System, step: Step): System
    requires Enabled(cfg, s, step)
  {
    match step
    case RegisterKey(key) => s.(keys := s.keys[key.keyId := key])
    case RevokeKey(keyId, at) => s.(keys := s.keys[keyId := s.keys[keyId].(revokedAt := Some(at))])
    case BeginPublish(call, input) => s.(calls := s.calls[call := Publishing(input, s.keys[input.keyId], KeyRead)])
    case AcceptForPublish(call, _) => DoAcceptForPublish(s, call)
    case LoadForPublish(call, agent, stamp) => DoLoadForPublish(cfg, s, call, agent, stamp)
    case StoreMessage(call) => DoStoreMessage(cfg, s, call)
    case BeginAttest(call, input) => s.(calls := s.calls[call := Attesting(input, s.keys[input.keyId], AKeyRead)])
    case AcceptForAttest(call, _) => DoAcceptForAttest(s, call)
    case LoadForAttest(call, agent) => DoLoadForAttest(s, call, agent)
    case ReadMessage(call, stamp) => DoReadMessage(cfg, s, call, stamp)
    case StoreAttestation(call) => DoStoreAttestation(s, call)
    case BeginConsume(call, consumer, condition, adHoc, requested) =>
      DoBeginConsume(s, call, consumer, condition, adHoc, requested)
    case FinishConsume(call, views) => DoFinishConsume(s, call, views)
    case BeginInstall(call, document) => s.(calls := s.calls[call := Installing(document)])
    case StorePolicy(call, hash, now) => DoStorePolicy(s, call, hash, now)
    case Abort(call) => s.(calls := Without(s.calls, call))
  }

  function HandedIds(out: seq<Message>): seq<nat> {
    seq(|out|, i requires 0 <= i < |out| => out[i].id)
  }

  /** steps leads from s to s'. */
  predicate Run(cfg: Config, s: System, steps: seq<Step>, s': System)
    decreases |steps|
  {
    if steps == [] then s == s'
    else Enabled(cfg, s, steps[0]) && Run(cfg, Apply(cfg, s, steps[0]), steps[1..], s')
  }
}
