/** Each successful call of the service and of the key store is a run of the protocol
    with nothing in between, so every promise proved for runs holds of them. */
module SecureBusRuns {
  import opened Wrappers
  import opened Crypto
  import opened AgentKeys
  import opened Policy
  import opened Filter
  import opened Topic
  import opened Consumers
  import opened TopicLaws
  import opened Protocol
  import opened ProtocolSafety
  import opened SecureBus

  function PublishSteps(call: nat, input: PublishInput, now: int, stamp: string, agent: string): seq<Step> {
    [BeginPublish(call, input), AcceptForPublish(call, now), LoadForPublish(call, agent, stamp), StoreMessage(call)]
  }

  function AttestSteps(call: nat, input: AttestInput, now: int, stamp: string, agent: string): seq<Step> {
    [BeginAttest(call, input), AcceptForAttest(call, now), LoadForAttest(call, agent), ReadMessage(call, stamp),
      StoreAttestation(call)]
  }

  lemma {:induction false} RunCons(cfg: Config, s: System, step: Step, steps: seq<Step>, s': System)
    requires Enabled(cfg, s, step) && Run(cfg, Apply(cfg, s, step), steps, s')
    ensures Run(cfg, s, [step] + steps, s')
  {
    assert ([step] + steps)[1..] == steps;
  }

  lemma TwoSteps(a: Step, b: Step, rest: seq<Step>)
    ensures [a, b] + rest == [a] + ([b] + rest)
  {
  }

  lemma FourSteps(a: Step, b: Step, c: Step, d: Step, rest: seq<Step>)
    ensures [a, b, c, d] + rest == [a] + ([b] + ([c] + ([d] + rest)))
  {
  }

  lemma FiveSteps(a: Step, b: Step, c: Step, d: Step, e: Step)
    ensures [a, b, c, d, e] == [a] + ([b] + ([c] + [d, e]))
  {
  }

  lemma MapBack<K, V>(m: map<K, V>, k: K, v: V)
    requires k !in m
    ensures m[k := v] - {k} == m
  {
  }

  /** The state of a Publish call once its policy is loaded and its signature checked. */
  function PublishLoaded(s: System, call: nat, input: PublishInput, policy: SignedPolicy, draft: Message): System
    requires input.keyId in s.keys && s.topic.policies != []
  {
    s.(calls := s.calls[call := Publishing(input, s.keys[input.keyId], Ready(Newest(s.topic).version, policy, draft))])
  }

  function PublishAccepted(s: System, call: nat, input: PublishInput): System
    requires input.keyId in s.keys && s.topic.policies != []
  {
    s.(calls := s.calls[call := Publishing(input, s.keys[input.keyId], Accepted(Newest(s.topic).version))])
  }

  /** Accepting takes the call from its start to there, whatever follows. */
  lemma PublishAccepts(cfg: Config, s: System, call: nat, input: PublishInput, now: int, rest: seq<Step>, s': System)
    requires call !in s.calls && MayUseKey(s, input.keyId, input.subjectKey, input.tokenId) && s.topic.policies != []
    requires AcceptPolicyVersion(Newest(s.topic), input.policyVersion, input.policyHash, now, cfg.grace)
    requires Run(cfg, PublishAccepted(s, call, input), rest, s')
    ensures Run(cfg, s, [BeginPublish(call, input)] + ([AcceptForPublish(call, now)] + rest), s')
  {
    var s1 := Apply(cfg, s, BeginPublish(call, input));
    assert CanAcceptForPublish(cfg, s1, call, now);
    var s2 := DoAcceptForPublish(s1, call);
    assert s2.calls == PublishAccepted(s, call, input).calls;
    RunCons(cfg, s1, AcceptForPublish(call, now), rest, s');
    RunCons(cfg, s, BeginPublish(call, input), [AcceptForPublish(call, now)] + rest, s');
  }

  lemma PublishLoads(cfg: Config, s: System, call: nat, input: PublishInput, stamp: string, agent: string,
      policy: SignedPolicy, draft: Message, rest: seq<Step>, s': System)
    requires input.keyId in s.keys && s.topic.policies != []
    requires PolicyWithVersion(s.topic.policies, input.policyVersion) == Some(policy)
    requires NamesKey(policy.document, input.keyId, agent, true) && May(policy.document, ToPublish, agent)
    requires draft == DraftMessage(cfg.scheme, cfg.objectId, input, stamp)
    requires SignedBy(cfg.scheme, s.keys[input.keyId], draft.signature, EnvelopeOf(draft))
    requires Run(cfg, PublishLoaded(s, call, input, policy, draft), rest, s')
    ensures Run(cfg, PublishAccepted(s, call, input), [LoadForPublish(call, agent, stamp)] + rest, s')
  {
    var s2 := PublishAccepted(s, call, input);
    assert CanLoadForPublish(cfg, s2, call, agent, stamp);
    var s3 := DoLoadForPublish(cfg, s2, call, agent, stamp);
    assert s3.calls == PublishLoaded(s, call, input, policy, draft).calls;
    RunCons(cfg, s2, LoadForPublish(call, agent, stamp), rest, s');
  }

  /** After a Publish that stored m. */
  function AfterPublish(s: System, m: Message): System
    requires s.topic.policies != []
  {
    s.(topic := AppendMessage(s.topic, m), messageChecks := s.messageChecks + [Newest(s.topic).version])
  }

  lemma PublishStores(cfg: Config, s: System, call: nat, input: PublishInput, policy: SignedPolicy, draft: Message,
      m: Message, rest: seq<Step>, s': System)
    requires call !in s.calls && input.keyId in s.keys && s.topic.policies != []
    requires ChainMessage(cfg.scheme, s.topic, policy.document.chain, s.keys[input.keyId], draft) == Result.Ok(m)
    requires Run(cfg, AfterPublish(s, m), rest, s')
    ensures Run(cfg, PublishLoaded(s, call, input, policy, draft), [StoreMessage(call)] + rest, s')
  {
    var s3 := PublishLoaded(s, call, input, policy, draft);
    assert CanStoreMessage(cfg, s3, call);
    MapBack(s.calls, call, s3.calls[call]);
    assert s3.calls == s.calls[call := s3.calls[call]];
    assert DoStoreMessage(cfg, s3, call) == AfterPublish(s, m);
    RunCons(cfg, s3, StoreMessage(call), rest, s');
  }

  /** What the checks of Publish found. */
  predicate PublishChecked(cfg: Config, s: System, input: PublishInput, now: int, agent: string, p: SignedPolicy,
      draft: Message, m: Message) {
    && MayUseKey(s, input.keyId, input.subjectKey, input.tokenId) && s.topic.policies != []
    && AcceptPolicyVersion(Newest(s.topic), input.policyVersion, input.policyHash, now, cfg.grace)
    && PolicyWithVersion(s.topic.policies, input.policyVersion) == Some(p)
    && NamesKey(p.document, input.keyId, agent, true) && May(p.document, ToPublish, agent)
    && SignedBy(cfg.scheme, s.keys[input.keyId], draft.signature, EnvelopeOf(draft))
    && ChainMessage(cfg.scheme, s.topic, p.document.chain, s.keys[input.keyId], draft) == Result.Ok(m)
  }

  lemma OutcomeChecked(cfg: Config, s: System, input: PublishInput, now: int, stamp: string, agent: Option<string>)
    requires PublishOutcome(cfg, s.topic, s.keys, input, now, stamp, agent).Ok?
    requires var p := PolicyWithVersion(s.topic.policies, input.policyVersion);
             p.Some? ==> MayAnswer(p.value.document, input.keyId, agent)
    ensures agent.Some? && PolicyWithVersion(s.topic.policies, input.policyVersion).Some?
    ensures PublishChecked(cfg, s, input, now, agent.value, PolicyWithVersion(s.topic.policies,
      input.policyVersion).value,
              DraftMessage(cfg.scheme, cfg.objectId, input, stamp),
              PublishOutcome(cfg, s.topic, s.keys, input, now, stamp, agent).value)
  {
  }

  lemma LoadThenStore(cfg: Config, s: System, call: nat, input: PublishInput, now: int, stamp: string, agent: string,
      p: SignedPolicy, draft: Message, m: Message, rest: seq<Step>, s': System)
    requires call !in s.calls && PublishChecked(cfg, s, input, now, agent, p, draft, m)
    requires draft == DraftMessage(cfg.scheme, cfg.objectId, input, stamp)
    requires Run(cfg, AfterPublish(s, m), rest, s')
    ensures Run(cfg, PublishAccepted(s, call, input), [LoadForPublish(call, agent, stamp)] + ([StoreMessage(call)]
      + rest), s')
  {
    PublishStores(cfg, s, call, input, p, draft, m, rest, s');
    PublishLoads(cfg, s, call, input, stamp, agent, p, draft, [StoreMessage(call)] + rest, s');
  }

  lemma CheckedThen(cfg: Config, s: System, call: nat, input: PublishInput, now: int, stamp: string, agent: string,
      p: SignedPolicy, draft: Message, m: Message, rest: seq<Step>, s': System)
    requires call !in s.calls && PublishChecked(cfg, s, input, now, agent, p, draft, m)
    requires draft == DraftMessage(cfg.scheme, cfg.objectId, input, stamp)
    requires Run(cfg, AfterPublish(s, m), rest, s')
    ensures Run(cfg, s, PublishSteps(call, input, now, stamp, agent) + rest, s')
  {
    var after := [LoadForPublish(call, agent, stamp)] + ([StoreMessage(call)] + rest);
    LoadThenStore(cfg, s, call, input, now, stamp, agent, p, draft, m, rest, s');
    PublishAccepts(cfg, s, call, input, now, after, s');
    FourSteps(BeginPublish(call, input), AcceptForPublish(call, now), LoadForPublish(call, agent, stamp),
      StoreMessage(call), rest);
  }

  lemma PublishThen(cfg: Config, s: System, call: nat, input: PublishInput, now: int, stamp: string,
      agent: Option<string>, rest: seq<Step>, s': System)
    requires call !in s.calls
    requires PublishOutcome(cfg, s.topic, s.keys, input, now, stamp, agent).Ok?
    requires var p := PolicyWithVersion(s.topic.policies, input.policyVersion);
             p.Some? ==> MayAnswer(p.value.document, input.keyId, agent)
    requires s.topic.policies != []
    requires Run(cfg, AfterPublish(s, PublishOutcome(cfg, s.topic, s.keys, input, now, stamp, agent).value), rest, s')
    ensures agent.Some? && Run(cfg, s, PublishSteps(call, input, now, stamp, agent.value) + rest, s')
  {
    OutcomeChecked(cfg, s, input, now, stamp, agent);
    CheckedThen(cfg, s, call, input, now, stamp, agent.value, PolicyWithVersion(s.topic.policies,
      input.policyVersion).value,
      DraftMessage(cfg.scheme, cfg.objectId, input, stamp),
      PublishOutcome(cfg, s.topic, s.keys, input, now, stamp, agent).value, rest, s');
  }

  /** A successful Publish is four protocol steps; it stores exactly one message. */
  lemma PublishIsRun(cfg: Config, s: System, call: nat, input: PublishInput, now: int, stamp: string,
      agent: Option<string>)
    requires call !in s.calls
    requires PublishOutcome(cfg, s.topic, s.keys, input, now, stamp, agent).Ok?
    requires var p := PolicyWithVersion(s.topic.policies, input.policyVersion); p.Some? ==>
      MayAnswer(p.value.document, input.keyId, agent)
    ensures agent.Some?
    ensures exists s' ::
      && Run(cfg, s, PublishSteps(call, input, now, stamp, agent.value), s')
      && s'.topic == AppendMessage(s.topic, PublishOutcome(cfg, s.topic, s.keys, input, now, stamp, agent).value)
      && s'.keys == s.keys && s'.calls == s.calls && s'.handed == s.handed
  {
    var s' := AfterPublish(s, PublishOutcome(cfg, s.topic, s.keys, input, now, stamp, agent).value);
    PublishThen(cfg, s, call, input, now, stamp, agent, [], s');
    assert PublishSteps(call, input, now, stamp, agent.value) + [] == PublishSteps(call, input, now, stamp,
      agent.value);
  }

  /** The state of an Attest call once its policy is loaded. */
  function AttestLoaded(s: System, call: nat, input: AttestInput, policy: SignedPolicy): System
    requires input.keyId in s.keys && s.topic.policies != []
  {
    s.(calls := s.calls[call := Attesting(input, s.keys[input.keyId], ALoaded(Newest(s.topic).version, policy))])
  }

  function AttestAccepted(s: System, call: nat, input: AttestInput): System
    requires input.keyId in s.keys && s.topic.policies != []
  {
    s.(calls := s.calls[call := Attesting(input, s.keys[input.keyId], AAccepted(Newest(s.topic).version))])
  }

  lemma AttestAccepts(cfg: Config, s: System, call: nat, input: AttestInput, now: int, rest: seq<Step>, s': System)
    requires call !in s.calls && MayUseKey(s, input.keyId, input.subjectKey, input.tokenId) && s.topic.policies != []
    requires AcceptPolicyVersion(Newest(s.topic), input.policyVersion, "", now, cfg.grace)
    requires Run(cfg, AttestAccepted(s, call, input), rest, s')
    ensures Run(cfg, s, [BeginAttest(call, input)] + ([AcceptForAttest(call, now)] + rest), s')
  {
    var s1 := Apply(cfg, s, BeginAttest(call, input));
    assert CanAcceptForAttest(cfg, s1, call, now);
    var s2 := DoAcceptForAttest(s1, call);
    assert s2.calls == AttestAccepted(s, call, input).calls;
    RunCons(cfg, s1, AcceptForAttest(call, now), rest, s');
    RunCons(cfg, s, BeginAttest(call, input), [AcceptForAttest(call, now)] + rest, s');
  }

  lemma AttestLoads(cfg: Config, s: System, call: nat, input: AttestInput, agent: string, policy: SignedPolicy,
      rest: seq<Step>, s': System)
    requires input.keyId in s.keys && s.topic.policies != []
    requires PolicyWithVersion(s.topic.policies, input.policyVersion) == Some(policy)
    requires NamesKey(policy.document, input.keyId, agent, true) && May(policy.document, ToAttest, agent)
    requires (input.status == "ok" || input.status == "deny")
      && Utf8Length(input.comment) <= CommentLimit(policy.document)
    requires Run(cfg, AttestLoaded(s, call, input, policy), rest, s')
    ensures Run(cfg, AttestAccepted(s, call, input), [LoadForAttest(call, agent)] + rest, s')
  {
    var s2 := AttestAccepted(s, call, input);
    assert CanLoadForAttest(s2, call, agent);
    assert DoLoadForAttest(s2, call, agent).calls == AttestLoaded(s, call, input, policy).calls;
    RunCons(cfg, s2, LoadForAttest(call, agent), rest, s');
  }

  lemma AttestStores(cfg: Config, s: System, call: nat, input: AttestInput, stamp: string, policy: SignedPolicy,
      m: Message, draft: Attestation)
    requires call !in s.calls && input.keyId in s.keys && s.topic.policies != []
    requires FindMessage(s.topic.messages, input.messageId) == Some(m)
    requires draft == DraftAttestation(cfg.objectId, input, m.hash, stamp)
    requires SignedBy(cfg.scheme, s.keys[input.keyId], draft.signature, AttestedEnvelope(draft))
    ensures Run(cfg, AttestLoaded(s, call, input, policy), [ReadMessage(call, stamp), StoreAttestation(call)],
                s.(topic := AppendAttestation(s.topic, draft), attestChecks := s.attestChecks
                  + [Newest(s.topic).version]))
  {
    var s3 := AttestLoaded(s, call, input, policy);
    assert CanReadMessage(cfg, s3, call, stamp);
    var s4 := DoReadMessage(cfg, s3, call, stamp);
    var s5 := DoStoreAttestation(s4, call);
    MapBack(s.calls, call, s4.calls[call]);
    assert s4.calls == s.calls[call := s4.calls[call]];
    RunCons(cfg, s4, StoreAttestation(call), [], s5);
    RunCons(cfg, s3, ReadMessage(call, stamp), [StoreAttestation(call)], s5);
  }

  /** What the checks of Attest found. */
  predicate AttestChecked(cfg: Config, s: System, input: AttestInput, now: int, agent: string, p: SignedPolicy,
      m: Message, draft: Attestation) {
    && MayUseKey(s, input.keyId, input.subjectKey, input.tokenId) && s.topic.policies != []
    && AcceptPolicyVersion(Newest(s.topic), input.policyVersion, "", now, cfg.grace)
    && PolicyWithVersion(s.topic.policies, input.policyVersion) == Some(p)
    && NamesKey(p.document, input.keyId, agent, true) && May(p.document, ToAttest, agent)
    && (input.status == "ok" || input.status == "deny") && Utf8Length(input.comment) <= CommentLimit(p.document)
    && FindMessage(s.topic.messages, input.messageId) == Some(m)
    && SignedBy(cfg.scheme, s.keys[input.keyId], draft.signature, AttestedEnvelope(draft))
  }

  lemma AttestOutcomeChecked(cfg: Config, s: System, input: AttestInput, now: int, stamp: string, agent: Option<string>)
    requires AttestOutcome(cfg, s.topic, s.keys, input, now, stamp, agent).Ok?
    requires var p := PolicyWithVersion(s.topic.policies, input.policyVersion);
             p.Some? ==> MayAnswer(p.value.document, input.keyId, agent)
    ensures agent.Some? && PolicyWithVersion(s.topic.policies, input.policyVersion).Some?
    ensures FindMessage(s.topic.messages, input.messageId).Some?
    ensures var m := FindMessage(s.topic.messages, input.messageId).value;
            var draft := DraftAttestation(cfg.objectId, input, m.hash, stamp);
            && AttestOutcome(cfg, s.topic, s.keys, input, now, stamp, agent).value == draft
            && AttestChecked(cfg, s, input, now, agent.value,
                 PolicyWithVersion(s.topic.policies, input.policyVersion).value, m, draft)
  {
  }

  /** After an Attest that stored the draft. */
  function AfterAttest(s: System, draft: Attestation): System
    requires s.topic.policies != []
  {
    s.(topic := AppendAttestation(s.topic, draft), attestChecks := s.attestChecks + [Newest(s.topic).version])
  }

  lemma CheckedAttestRuns(cfg: Config, s: System, call: nat, input: AttestInput, now: int, stamp: string, agent: string,
      p: SignedPolicy, m: Message, draft: Attestation)
    requires call !in s.calls && AttestChecked(cfg, s, input, now, agent, p, m, draft)
    requires draft == DraftAttestation(cfg.objectId, input, m.hash, stamp)
    ensures Run(cfg, s, AttestSteps(call, input, now, stamp, agent), AfterAttest(s, draft))
  {
    var rest := [ReadMessage(call, stamp), StoreAttestation(call)];
    AttestStores(cfg, s, call, input, stamp, p, m, draft);
    AttestLoads(cfg, s, call, input, agent, p, rest, AfterAttest(s, draft));
    AttestAccepts(cfg, s, call, input, now, [LoadForAttest(call, agent)] + rest, AfterAttest(s, draft));
    FiveSteps(BeginAttest(call, input), AcceptForAttest(call, now), LoadForAttest(call, agent), ReadMessage(call,
      stamp),
      StoreAttestation(call));
  }

  /** A successful Attest is five protocol steps. */
  lemma AttestIsRun(cfg: Config, s: System, call: nat, input: AttestInput, now: int, stamp: string,
      agent: Option<string>)
    requires call !in s.calls
    requires AttestOutcome(cfg, s.topic, s.keys, input, now, stamp, agent).Ok?
    requires var p := PolicyWithVersion(s.topic.policies, input.policyVersion);
             p.Some? ==> MayAnswer(p.value.document, input.keyId, agent)
    ensures agent.Some?
    ensures exists s' ::
      && Run(cfg, s, AttestSteps(call, input, now, stamp, agent.value), s')
      && s'.topic == AppendAttestation(s.topic, AttestOutcome(cfg, s.topic, s.keys, input, now, stamp, agent).value)
      && s'.keys == s.keys && s'.calls == s.calls && s'.handed == s.handed
  {
    AttestOutcomeChecked(cfg, s, input, now, stamp, agent);
    var p := PolicyWithVersion(s.topic.policies, input.policyVersion).value;
    var m := FindMessage(s.topic.messages, input.messageId).value;
    var draft := AttestOutcome(cfg, s.topic, s.keys, input, now, stamp, agent).value;
    CheckedAttestRuns(cfg, s, call, input, now, stamp, agent.value, p, m, draft);
  }

  function ConsumeSteps(call: nat, consumer: string, condition: string, adHoc: Option<Condition>, max: int,
      views: seq<MessageView>): seq<Step> {
    [BeginConsume(call, consumer, condition, adHoc, max), FinishConsume(call, views)]
  }

  /** After a Consume that ended as q. */
  function AfterBatch(s: System, consumer: string, q: Progress): System {
    s.(topic := AfterConsume(s.topic, consumer, q),
       handed := s.handed[consumer := HandedTo(s, consumer) + HandedIds(q.out)])
  }

  lemma ConsumeThen(cfg: Config, s: System, call: nat, consumer: string, condition: string, adHoc: Option<Condition>,
      max: int, cond: Condition, views: seq<MessageView>, rest: seq<Step>, s': System)
    requires call !in s.calls && s.topic.policies != []
    requires ResolveCondition(Newest(s.topic).document, condition, adHoc) == Some(cond)
    requires AreViews(Newest(s.topic).document, s.topic, views)
    requires var name := ConsumerName(consumer);
             Run(cfg, AfterBatch(s, name, Consumed(s.topic, name, cond, views, BatchSize(max))), rest, s')
    ensures Run(cfg, s, ConsumeSteps(call, consumer, condition, adHoc, max, views) + rest, s')
  {
    var s1 := DoBeginConsume(s, call, consumer, condition, adHoc, max);
    var begin, finish := BeginConsume(call, consumer, condition, adHoc, max), FinishConsume(call, views);
    assert CanFinishConsume(s1, call, views);
    MapBack(s.calls, call, s1.calls[call]);
    RunCons(cfg, s1, finish, rest, s');
    RunCons(cfg, s, begin, [finish] + rest, s');
    TwoSteps(begin, finish, rest);
  }

  /** A successful Consume is two protocol steps, and hands out what it returns. */
  lemma ConsumeIsRun(cfg: Config, s: System, call: nat, consumer: string, condition: string, adHoc: Option<Condition>,
      max: int, cond: Condition, views: seq<MessageView>)
    requires call !in s.calls && s.topic.policies != []
    requires ResolveCondition(Newest(s.topic).document, condition, adHoc) == Some(cond)
    requires AreViews(Newest(s.topic).document, s.topic, views)
    ensures var name := ConsumerName(consumer);
            Run(cfg, s, ConsumeSteps(call, consumer, condition, adHoc, max, views),
                AfterBatch(s, name, Consumed(s.topic, name, cond, views, BatchSize(max))))
  {
    var name := ConsumerName(consumer);
    var s' := AfterBatch(s, name, Consumed(s.topic, name, cond, views, BatchSize(max)));
    var steps := ConsumeSteps(call, consumer, condition, adHoc, max, views);
    ConsumeThen(cfg, s, call, consumer, condition, adHoc, max, cond, views, [], s');
    assert steps + [] == steps;
  }

  // ---- Policies and keys ------------------------------------------------------------

  /** What PutPolicy checks of the document it has prepared. */
  predicate Installable(cfg: Config, keys: map<string, Key>, doc: Document) {
    && ValidDocument(doc) && doc.topicId == cfg.objectId
    && forall n | n in doc.agents :: doc.agents[n].keyId in keys && keys[doc.agents[n].keyId].revokedAt == None
  }

  function InstallSteps(call: nat, doc: Document, hash: string, now: int): seq<Step> {
    [BeginInstall(call, doc), StorePolicy(call, hash, now)]
  }

  function AfterInstall(s: System, doc: Document, hash: string, now: int): System {
    s.(topic := AppendPolicy(s.topic, doc, hash, now))
  }

  lemma PutPolicyThen(cfg: Config, s: System, call: nat, doc: Document, hash: string, now: int, rest: seq<Step>,
      s': System)
    requires call !in s.calls && Installable(cfg, s.keys, doc)
    requires Run(cfg, AfterInstall(s, doc, hash, now), rest, s')
    ensures Run(cfg, s, InstallSteps(call, doc, hash, now) + rest, s')
  {
    var begin, store := BeginInstall(call, doc), StorePolicy(call, hash, now);
    var s1 := Apply(cfg, s, begin);
    MapBack(s.calls, call, Installing(doc));
    RunCons(cfg, s1, store, rest, s');
    RunCons(cfg, s, begin, [store] + rest, s');
    TwoSteps(begin, store, rest);
  }

  /** A successful PutPolicy is two protocol steps; it appends exactly its policy. */
  lemma PutPolicyIsRun(cfg: Config, s: System, call: nat, doc: Document, hash: string, now: int)
    requires call !in s.calls && Installable(cfg, s.keys, doc)
    ensures Run(cfg, s, InstallSteps(call, doc, hash, now), AfterInstall(s, doc, hash, now))
  {
    PutPolicyThen(cfg, s, call, doc, hash, now, [], AfterInstall(s, doc, hash, now));
    assert InstallSteps(call, doc, hash, now) + [] == InstallSteps(call, doc, hash, now);
  }

  /** A successful Register is one protocol step. */
  lemma RegisterIsRun(cfg: Config, s: System, key: Key)
    requires key.keyId !in s.keys && key.revokedAt == None
    ensures Run(cfg, s, [RegisterKey(key)], s.(keys := s.keys[key.keyId := key]))
  {
    RunCons(cfg, s, RegisterKey(key), [], s.(keys := s.keys[key.keyId := key]));
  }

  /** So is a successful Revoke. */
  lemma RevokeIsRun(cfg: Config, s: System, keyId: string, now: int)
    requires keyId in s.keys
    ensures Run(cfg, s, [RevokeKey(keyId, now)], s.(keys := s.keys[keyId := s.keys[keyId].(revokedAt := Some(now))]))
  {
    RunCons(cfg, s, RevokeKey(keyId, now), [], s.(keys := s.keys[keyId := s.keys[keyId].(revokedAt := Some(now))]));
  }

  // ---- Verify -----------------------------------------------------------------------

  /** Every stored attestation is signed by its key and refers to its message. */
  ghost predicate AllVerify(c: Scheme, keys: map<string, Key>, t: Topic) {
    forall k | 0 <= k < |t.attests| :: GenuineAttestation(c, keys, t.attests[k]) && RefersTo(t.messages, t.attests[k])
  }

  lemma SafeAllVerify(cfg: Config, s: System)
    requires Safe(cfg, s)
    ensures AllVerify(cfg.scheme, s.keys, s.topic)
  {
    forall k | 0 <= k < |s.topic.attests|
      ensures GenuineAttestation(cfg.scheme, s.keys, s.topic.attests[k])
        && RefersTo(s.topic.messages, s.topic.attests[k])
    {
      assert AttestationOk(cfg, s.keys, s.topic.policies, s.topic.messages, s.topic.attests[k]);
    }
  }

  lemma ListedVerifies(c: Scheme, keys: map<string, Key>, t: Topic, id: int, i: nat)
    requires AllVerify(c, keys, t) && 1 <= id <= |t.messages| && i < |AttestationsOn(t.attests, id)|
    ensures var a := AttestationsOn(t.attests, id)[i];
            a.messageHash == t.messages[id - 1].hash && CheckAttestation(c, keys, a).signatureOk
  {
    var k := ListedAt(t.attests, id, i);
  }

  /** Everything Verify checks came out right. */
  predicate Passes(v: Verification) {
    && v.hashOk && v.signatureOk
    && (forall i | 0 <= i < |v.checks| :: v.checks[i].signatureOk)
    && (forall i | 0 <= i < |v.attestations| :: v.attestations[i].messageHash == v.message.hash)
  }

  lemma MessageVerifies(cfg: Config, s: System, i: nat)
    requires Safe(cfg, s) && i < |s.topic.messages|
    ensures Genuine(cfg.scheme, s.keys, s.topic.messages[i]) && s.topic.messages[i].id == i + 1
  {
    assert MessageOk(cfg, s.keys, s.topic.policies, s.topic.messages[i]);
  }

  /** The attestations listed for a message refer to it and are signed by their keys. */
  predicate ListedPass(c: Scheme, keys: map<string, Key>, attests: seq<Attestation>, id: int, hash: string) {
    forall i | 0 <= i < |AttestationsOn(attests, id)| ::
      var a := AttestationsOn(attests, id)[i];
      a.messageHash == hash && CheckAttestation(c, keys, a).signatureOk
  }

  lemma GenuinePasses(c: Scheme, keys: map<string, Key>, t: Topic, m: Message, id: int)
    requires m.id == id && Genuine(c, keys, m) && ListedPass(c, keys, t.attests, id, m.hash)
    ensures Passes(Verified(c, keys, t, m))
  {
  }

  /** In a safe state Verify passes on every stored message, and finds no other. */
  lemma VerifyPasses(cfg: Config, s: System, id: int)
    requires Safe(cfg, s)
    ensures match FindMessage(s.topic.messages, id)
            case None => !(1 <= id <= |s.topic.messages|)
            case Some(m) =>
              && 1 <= id <= |s.topic.messages|
              && m == s.topic.messages[id - 1]
              && Passes(Verified(cfg.scheme, s.keys, s.topic, m))
  {
    SafeFinds(cfg, s, id);
    if 1 <= id <= |s.topic.messages| { StoredPasses(cfg, s, id); }
  }

  lemma SafeFinds(cfg: Config, s: System, id: int)
    requires Safe(cfg, s)
    ensures FindMessage(s.topic.messages, id) ==
            if 1 <= id <= |s.topic.messages| then Some(s.topic.messages[id - 1]) else None
  {
    FindDense(s.topic.messages, 0, id);
  }

  lemma StoredPasses(cfg: Config, s: System, id: int)
    requires Safe(cfg, s) && 1 <= id <= |s.topic.messages|
    ensures Passes(Verified(cfg.scheme, s.keys, s.topic, s.topic.messages[id - 1]))
  {
    MessageVerifies(cfg, s, id - 1);
    AttestationsVerify(cfg, s, id);
    GenuinePasses(cfg.scheme, s.keys, s.topic, s.topic.messages[id - 1], id);
  }

  lemma AttestationsVerify(cfg: Config, s: System, id: int)
    requires Safe(cfg, s) && 1 <= id <= |s.topic.messages|
    ensures ListedPass(cfg.scheme, s.keys, s.topic.attests, id, s.topic.messages[id - 1].hash)
  {
    SafeAllVerify(cfg, s);
    forall i | 0 <= i < |AttestationsOn(s.topic.attests, id)|
      ensures var a := AttestationsOn(s.topic.attests, id)[i];
              a.messageHash == s.topic.messages[id - 1].hash && CheckAttestation(cfg.scheme, s.keys, a).signatureOk
    {
      ListedVerifies(cfg.scheme, s.keys, s.topic, id, i);
    }
  }

  /** Where a listed attestation is stored. */
  lemma {:induction false} ListedAt(attests: seq<Attestation>, id: int, i: nat) returns (k: nat)
    requires i < |AttestationsOn(attests, id)|
    ensures k < |attests| && attests[k] == AttestationsOn(attests, id)[i] && attests[k].messageId == id
  {
    var init := attests[..|attests| - 1];
    if i < |AttestationsOn(init, id)| {
      k := ListedAt(init, id, i);
    } else {
      k := |attests| - 1;
    }
  }
}
