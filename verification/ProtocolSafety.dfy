/** What holds in every state the protocol can reach, whatever the interleaving. */
module ProtocolSafety {
  import opened Wrappers
  import opened Crypto
  import opened AgentKeys
  import opened Policy
  import opened Filter
  import opened Topic
  import opened TopicLaws
  import opened Delivery
  import opened Protocol

  // ---- The invariant --------------------------------------------------------------

  ghost predicate HolderMay(doc: Document, keyId: string, rule: Rule, agent: string) {
    NamesKey(doc, keyId, agent, true) && May(doc, rule, agent)
  }

  ghost predicate SomeHolderMay(doc: Document, keyId: string, rule: Rule) {
    exists n :: HolderMay(doc, keyId, rule, n)
  }

  /** An agent of that policy version holds the key and may act. */
  ghost predicate Authorised(policies: seq<SignedPolicy>, version: int, keyId: string, rule: Rule) {
    1 <= version <= |policies| && SomeHolderMay(policies[version - 1].document, keyId, rule)
  }

  /** The stored hash is the hash of the envelope and the author's key signed it. */
  ghost predicate Genuine(c: Scheme, keys: map<string, Key>, m: Message) {
    && m.authorKeyId in keys
    && m.hash == c.hashOf(EnvelopeOf(m))
    && SignedBy(c, keys[m.authorKeyId], m.signature, EnvelopeOf(m))
  }

  ghost predicate GenuineAttestation(c: Scheme, keys: map<string, Key>, a: Attestation) {
    && a.signerKeyId in keys
    && SignedBy(c, keys[a.signerKeyId], a.signature, AttestedEnvelope(a))
  }

  /** The version was the newest or one behind when the call was let through. */
  ghost predicate CheckedAt(current: int, version: int, policies: seq<SignedPolicy>) {
    current - 1 <= version <= current && 1 <= current <= |policies|
  }

  ghost predicate MessageOk(cfg: Config, keys: map<string, Key>, policies: seq<SignedPolicy>, m: Message) {
    && m.objectId == cfg.objectId
    && Genuine(cfg.scheme, keys, m)
    && Authorised(policies, m.policyVersion, m.authorKeyId, ToPublish)
  }

  ghost predicate RefersTo(messages: seq<Message>, a: Attestation) {
    1 <= a.messageId <= |messages| && a.messageHash == messages[a.messageId - 1].hash
  }

  ghost predicate AttestationOk(cfg: Config, keys: map<string, Key>, policies: seq<SignedPolicy>,
      messages: seq<Message>, a: Attestation) {
    && a.objectId == cfg.objectId
    && GenuineAttestation(cfg.scheme, keys, a)
    && Authorised(policies, a.policyVersion, a.signerKeyId, ToAttest)
    && (a.status == "ok" || a.status == "deny")
    && RefersTo(messages, a)
  }

  ghost predicate PolicyOk(cfg: Config, keys: map<string, Key>, doc: Document) {
    && ValidDocument(doc) && doc.topicId == cfg.objectId
    && forall n | n in doc.agents :: doc.agents[n].keyId in keys
  }

  ghost predicate ChainedUnder(policies: seq<SignedPolicy>, version: int) {
    1 <= version <= |policies| && policies[version - 1].document.chain
  }

  ghost predicate PoliciesOk(cfg: Config, keys: map<string, Key>, policies: seq<SignedPolicy>) {
    forall i | 0 <= i < |policies| :: PolicyOk(cfg, keys, policies[i].document)
  }

  ghost predicate MessagesOk(cfg: Config, keys: map<string, Key>, policies: seq<SignedPolicy>, messages: seq<Message>) {
    forall i | 0 <= i < |messages| :: MessageOk(cfg, keys, policies, messages[i])
  }

  ghost predicate AttestsOk(cfg: Config, keys: map<string, Key>, policies: seq<SignedPolicy>, messages: seq<Message>,
      attests: seq<Attestation>) {
    forall i | 0 <= i < |attests| :: AttestationOk(cfg, keys, policies, messages, attests[i])
  }

  /** Under a chained policy every message but the first names its predecessor's hash. */
  ghost predicate LinksOk(policies: seq<SignedPolicy>, messages: seq<Message>) {
    forall i | 1 <= i < |messages| && ChainedUnder(policies, messages[i].policyVersion) ::
      messages[i].prevHash == messages[i - 1].hash
  }

  ghost predicate StoredOk(cfg: Config, keys: map<string, Key>, t: Topic) {
    && PoliciesOk(cfg, keys, t.policies)
    && MessagesOk(cfg, keys, t.policies, t.messages)
    && AttestsOk(cfg, keys, t.policies, t.messages, t.attests)
    && LinksOk(t.policies, t.messages)
  }

  ghost predicate ChecksOk(s: System) {
    && |s.messageChecks| == |s.topic.messages| && |s.attestChecks| == |s.topic.attests|
    && (forall i | 0 <= i < |s.messageChecks| :: CheckedAt(s.messageChecks[i], s.topic.messages[i].policyVersion,
      s.topic.policies))
    && (forall i | 0 <= i < |s.attestChecks| :: CheckedAt(s.attestChecks[i], s.topic.attests[i].policyVersion,
      s.topic.policies))
  }

  ghost predicate NoRepeats(ids: seq<nat>) {
    forall i, j | 0 <= i < j < |ids| :: ids[i] != ids[j]
  }

  /** What a consumer was handed is what is recorded as delivered, each id once. */
  ghost predicate HandedOk(s: System) {
    && s.handed.Keys == s.topic.delivered.Keys
    && forall c | c in s.handed :: NoRepeats(s.handed[c]) && (set id | id in s.handed[c]) == s.topic.delivered[c]
  }

  ghost predicate HoldsKey(keys: map<string, Key>, keyId: string, key: Key) {
    keyId in keys && SameKey(key, keys[keyId])
  }

  ghost predicate LoadedPolicy(t: Topic, version: int, policy: SignedPolicy) {
    1 <= version <= |t.policies| && policy == t.policies[version - 1]
  }

  ghost predicate PublishStageOk(cfg: Config, keys: map<string, Key>, t: Topic, input: PublishInput,
      stage: PublishStage) {
    match stage
    case KeyRead => true
    case Accepted(current) => CheckedAt(current, input.policyVersion, t.policies)
    case Ready(current, policy, draft) =>
      && CheckedAt(current, input.policyVersion, t.policies)
      && LoadedPolicy(t, input.policyVersion, policy)
      && draft.authorKeyId == input.keyId && draft.policyVersion == input.policyVersion
      && MessageOk(cfg, keys, t.policies, draft)
  }

  ghost predicate AttestStageOk(cfg: Config, keys: map<string, Key>, t: Topic, input: AttestInput, stage: AttestStage) {
    match stage
    case AKeyRead => true
    case AAccepted(current) => CheckedAt(current, input.policyVersion, t.policies)
    case ALoaded(current, policy) =>
      && CheckedAt(current, input.policyVersion, t.policies)
      && (input.status == "ok" || input.status == "deny")
      && Authorised(t.policies, input.policyVersion, input.keyId, ToAttest)
    case AReady(current, policy, draft) =>
      && CheckedAt(current, input.policyVersion, t.policies)
      && draft.signerKeyId == input.keyId && draft.policyVersion == input.policyVersion && draft.supersededAt == None
      && AttestationOk(cfg, keys, t.policies, t.messages, draft)
  }

  ghost predicate CallOk(cfg: Config, keys: map<string, Key>, t: Topic, c: Call) {
    match c
    case Publishing(input, key, stage) => HoldsKey(keys, input.keyId, key) && PublishStageOk(cfg, keys, t, input, stage)
    case Attesting(input, key, stage) => HoldsKey(keys, input.keyId, key) && AttestStageOk(cfg, keys, t, input, stage)
    case Consuming(_, document, _, max) => max > 0
    case Installing(document) => PolicyOk(cfg, keys, document)
  }

  ghost predicate Safe(cfg: Config, s: System) {
    && (forall id | id in s.keys :: s.keys[id].keyId == id)
    && Consistent(s.topic)
    && StoredOk(cfg, s.keys, s.topic)
    && ChecksOk(s)
    && HandedOk(s)
    && (forall id | id in s.calls :: CallOk(cfg, s.keys, s.topic, s.calls[id]))
  }

  // ---- What only grows --------------------------------------------------------------

  ghost predicate KeysGrow(keys: map<string, Key>, keys': map<string, Key>) {
    forall id | id in keys :: id in keys' && SameKey(keys[id], keys'[id])
  }

  /** Keys are never removed or changed but for revocation; policies and messages
      are only appended. */
  ghost predicate Grows(keys: map<string, Key>, t: Topic, keys': map<string, Key>, t': Topic) {
    KeysGrow(keys, keys') && t.policies <= t'.policies && t.messages <= t'.messages
  }

  lemma StaysAuthorised(policies: seq<SignedPolicy>, policies': seq<SignedPolicy>, version: int, keyId: string,
      rule: Rule)
    requires policies <= policies' && Authorised(policies, version, keyId, rule)
    ensures Authorised(policies', version, keyId, rule)
  {
    assert policies'[version - 1] == policies[version - 1];
  }

  lemma SameKeySigns(c: Scheme, a: Key, b: Key, signature: string, envelope: Envelope)
    requires SameKey(a, b)
    ensures SignedBy(c, a, signature, envelope) == SignedBy(c, b, signature, envelope)
  {
    assert a.alg == a.(revokedAt := None).alg == b.alg;
    assert a.publicKey == a.(revokedAt := None).publicKey == b.publicKey;
  }

  lemma MessageStaysOk(cfg: Config, keys: map<string, Key>, policies: seq<SignedPolicy>, keys': map<string, Key>,
      policies': seq<SignedPolicy>, m: Message)
    requires KeysGrow(keys, keys') && policies <= policies' && MessageOk(cfg, keys, policies, m)
    ensures MessageOk(cfg, keys', policies', m)
  {
    StaysAuthorised(policies, policies', m.policyVersion, m.authorKeyId, ToPublish);
    SameKeySigns(cfg.scheme, keys[m.authorKeyId], keys'[m.authorKeyId], m.signature, EnvelopeOf(m));
  }

  lemma AttestationStaysOk(cfg: Config, keys: map<string, Key>, t: Topic, keys': map<string, Key>, t': Topic,
      a: Attestation)
    requires Grows(keys, t, keys', t') && AttestationOk(cfg, keys, t.policies, t.messages, a)
    ensures AttestationOk(cfg, keys', t'.policies, t'.messages, a)
  {
    StaysAuthorised(t.policies, t'.policies, a.policyVersion, a.signerKeyId, ToAttest);
    SameKeySigns(cfg.scheme, keys[a.signerKeyId], keys'[a.signerKeyId], a.signature, AttestedEnvelope(a));
    assert t'.messages[a.messageId - 1] == t.messages[a.messageId - 1];
  }

  lemma MessagesStayOk(cfg: Config, keys: map<string, Key>, policies: seq<SignedPolicy>, keys': map<string, Key>,
      policies': seq<SignedPolicy>, messages: seq<Message>)
    requires KeysGrow(keys, keys') && policies <= policies' && MessagesOk(cfg, keys, policies, messages)
    ensures MessagesOk(cfg, keys', policies', messages)
  {
    forall i | 0 <= i < |messages| ensures MessageOk(cfg, keys', policies', messages[i]) {
      MessageStaysOk(cfg, keys, policies, keys', policies', messages[i]);
    }
  }

  lemma AttestsStayOk(cfg: Config, keys: map<string, Key>, t: Topic, keys': map<string, Key>, t': Topic)
    requires Grows(keys, t, keys', t') && AttestsOk(cfg, keys, t.policies, t.messages, t.attests)
    ensures AttestsOk(cfg, keys', t'.policies, t'.messages, t.attests)
  {
    forall i | 0 <= i < |t.attests| ensures AttestationOk(cfg, keys', t'.policies, t'.messages, t.attests[i]) {
      AttestationStaysOk(cfg, keys, t, keys', t', t.attests[i]);
    }
  }

  lemma CallStaysOk(cfg: Config, keys: map<string, Key>, t: Topic, keys': map<string, Key>, t': Topic, c: Call)
    requires Grows(keys, t, keys', t') && CallOk(cfg, keys, t, c)
    ensures CallOk(cfg, keys', t', c)
  {
    match c
    case Publishing(input, key, stage) =>
      if stage.Ready? { MessageStaysOk(cfg, keys, t.policies, keys', t'.policies, stage.draft); }
    case Attesting(input, key, stage) =>
      if stage.AReady? { AttestationStaysOk(cfg, keys, t, keys', t', stage.draft); }
      if stage.ALoaded? { StaysAuthorised(t.policies, t'.policies, input.policyVersion, input.keyId, ToAttest); }
    case Consuming(_, _, _, _) =>
    case Installing(_) =>
  }

  lemma CallsStayOk(cfg: Config, s: System, keys': map<string, Key>, t': Topic, calls': map<nat, Call>)
    requires Safe(cfg, s) && Grows(s.keys, s.topic, keys', t')
    requires forall id | id in calls' :: id in s.calls && calls'[id] == s.calls[id]
    ensures forall id | id in calls' :: CallOk(cfg, keys', t', calls'[id])
  {
    forall id | id in calls' ensures CallOk(cfg, keys', t', calls'[id]) {
      CallStaysOk(cfg, s.keys, s.topic, keys', t', s.calls[id]);
    }
  }

  lemma StoredStaysOk(cfg: Config, keys: map<string, Key>, t: Topic, keys': map<string, Key>, t': Topic)
    requires StoredOk(cfg, keys, t) && Grows(keys, t, keys', t')
    requires t'.policies == t.policies && t'.messages == t.messages && t'.attests == t.attests
    ensures StoredOk(cfg, keys', t')
  {
    MessagesStayOk(cfg, keys, t.policies, keys', t'.policies, t.messages);
    AttestsStayOk(cfg, keys, t, keys', t');
  }

  // ---- Each step keeps the invariant ------------------------------------------------

  lemma KeyStepSafe(cfg: Config, s: System, keys': map<string, Key>)
    requires Safe(cfg, s) && KeysGrow(s.keys, keys') && forall id | id in keys' :: keys'[id].keyId == id
    ensures Safe(cfg, s.(keys := keys'))
  {
    StoredStaysOk(cfg, s.keys, s.topic, keys', s.topic);
    CallsStayOk(cfg, s, keys', s.topic, s.calls);
  }

  /** A step that only starts or advances one call is safe if the call is. */
  lemma CallStepSafe(cfg: Config, s: System, id: nat, c: Call)
    requires Safe(cfg, s) && CallOk(cfg, s.keys, s.topic, c)
    ensures Safe(cfg, s.(calls := s.calls[id := c]))
  {
  }

  lemma AbortSafe(cfg: Config, s: System, id: nat)
    requires Safe(cfg, s)
    ensures Safe(cfg, s.(calls := Without(s.calls, id)))
  {
  }

  lemma AcceptedVersion(t: Topic, version: int, hash: string, now: int, grace: int)
    requires Dense(t) && t.policies != [] && AcceptPolicyVersion(Newest(t), version, hash, now, grace)
    ensures CheckedAt(Newest(t).version, version, t.policies)
  {
  }

  lemma AttestReadyOk(cfg: Config, keys: map<string, Key>, t: Topic, c: Call, m: Message, draft: Attestation,
      stamp: string)
    requires c.Attesting? && c.attestStage.ALoaded? && CallOk(cfg, keys, t, c)
    requires 1 <= c.attestInput.messageId <= |t.messages| && m == t.messages[c.attestInput.messageId - 1]
    requires draft == DraftAttestation(cfg.objectId, c.attestInput, m.hash, stamp)
    requires SignedBy(cfg.scheme, c.key, draft.signature, AttestedEnvelope(draft))
    ensures CallOk(cfg, keys, t, c.(attestStage := AReady(c.attestStage.current, c.attestStage.policy, draft)))
  {
    SameKeySigns(cfg.scheme, c.key, keys[c.attestInput.keyId], draft.signature, AttestedEnvelope(draft));
  }

  lemma SafeCall(cfg: Config, s: System, call: nat)
    requires Safe(cfg, s) && call in s.calls
    ensures CallOk(cfg, s.keys, s.topic, s.calls[call]) && Dense(s.topic)
  {
  }

  lemma PublishReadyOk(cfg: Config, keys: map<string, Key>, t: Topic, c: Call, policy: SignedPolicy, stamp: string)
    requires c.Publishing? && c.stage.Accepted? && CallOk(cfg, keys, t, c)
    requires LoadedPolicy(t, c.input.policyVersion, policy)
    requires SomeHolderMay(policy.document, c.input.keyId, ToPublish)
    requires var draft := DraftMessage(cfg.scheme, cfg.objectId, c.input, stamp);
             SignedBy(cfg.scheme, c.key, draft.signature, EnvelopeOf(draft))
    ensures var draft := DraftMessage(cfg.scheme, cfg.objectId, c.input, stamp);
            CallOk(cfg, keys, t, c.(stage := Ready(c.stage.current, policy, draft)))
  {
    var draft := DraftMessage(cfg.scheme, cfg.objectId, c.input, stamp);
    assert EnvelopeOf(draft) == EnvelopeOf(draft.(hash := ""));
    SameKeySigns(cfg.scheme, c.key, keys[c.input.keyId], draft.signature, EnvelopeOf(draft));
  }

  lemma LoadForPublishSafe(cfg: Config, s: System, call: nat, agent: string, stamp: string)
    requires Safe(cfg, s) && CanLoadForPublish(cfg, s, call, agent, stamp)
    ensures Safe(cfg, DoLoadForPublish(cfg, s, call, agent, stamp))
  {
    SafeCall(cfg, s, call);
    var c := s.calls[call];
    var v := c.input.policyVersion;
    PolicyDense(s.topic.policies, 0, v);
    var p := s.topic.policies[v - 1];
    assert HolderMay(p.document, c.input.keyId, ToPublish, agent);
    PublishReadyOk(cfg, s.keys, s.topic, c, p, stamp);
    CallStepSafe(cfg, s, call, DoLoadForPublish(cfg, s, call, agent, stamp).calls[call]);
  }

  lemma LoadForAttestOk(cfg: Config, s: System, call: nat, agent: string)
    requires CanLoadForAttest(s, call, agent) && Dense(s.topic) && CallOk(cfg, s.keys, s.topic, s.calls[call])
    ensures CallOk(cfg, s.keys, s.topic, DoLoadForAttest(s, call, agent).calls[call])
  {
    var c := s.calls[call];
    var v := c.attestInput.policyVersion;
    PolicyDense(s.topic.policies, 0, v);
    assert HolderMay(s.topic.policies[v - 1].document, c.attestInput.keyId, ToAttest, agent);
  }

  lemma LoadForAttestSafe(cfg: Config, s: System, call: nat, agent: string)
    requires Safe(cfg, s) && CanLoadForAttest(s, call, agent)
    ensures Safe(cfg, DoLoadForAttest(s, call, agent))
  {
    SafeCall(cfg, s, call);
    LoadForAttestOk(cfg, s, call, agent);
    CallStepSafe(cfg, s, call, DoLoadForAttest(s, call, agent).calls[call]);
  }

  lemma ReadMessageOk(cfg: Config, s: System, call: nat, stamp: string)
    requires CanReadMessage(cfg, s, call, stamp) && Dense(s.topic) && CallOk(cfg, s.keys, s.topic, s.calls[call])
    ensures CallOk(cfg, s.keys, s.topic, DoReadMessage(cfg, s, call, stamp).calls[call])
  {
    var c := s.calls[call];
    FindDense(s.topic.messages, 0, c.attestInput.messageId);
    var m := FindMessage(s.topic.messages, c.attestInput.messageId).value;
    var draft := DraftAttestation(cfg.objectId, c.attestInput, m.hash, stamp);
    AttestReadyOk(cfg, s.keys, s.topic, c, m, draft, stamp);
  }

  lemma ReadMessageSafe(cfg: Config, s: System, call: nat, stamp: string)
    requires Safe(cfg, s) && CanReadMessage(cfg, s, call, stamp)
    ensures Safe(cfg, DoReadMessage(cfg, s, call, stamp))
  {
    SafeCall(cfg, s, call);
    ReadMessageOk(cfg, s, call, stamp);
    CallStepSafe(cfg, s, call, DoReadMessage(cfg, s, call, stamp).calls[call]);
  }

  // ---- The locked appends -----------------------------------------------------------

  /** Filling in the predecessor's hash keeps the stored hash and the signature in
      step with the envelope, because a hash is never empty. */
  lemma ChainedOk(cfg: Config, keys: map<string, Key>, t: Topic, chain: bool, key: Key, draft: Message)
    requires HashesNonEmpty(cfg.scheme)
    requires MessageOk(cfg, keys, t.policies, draft) && HoldsKey(keys, draft.authorKeyId, key)
    requires t.messages != [] ==> Genuine(cfg.scheme, keys, t.messages[|t.messages| - 1])
    requires ChainMessage(cfg.scheme, t, chain, key, draft).Ok?
    ensures var m := ChainMessage(cfg.scheme, t, chain, key, draft).value;
            && MessageOk(cfg, keys, t.policies, m)
            && m.policyVersion == draft.policyVersion
            && (chain && t.messages != [] ==> m.prevHash == t.messages[|t.messages| - 1].hash)
  {
    if chain && t.messages != [] && draft.prevHash == "" {
      var prev := t.messages[|t.messages| - 1].hash;
      var m := ChainMessage(cfg.scheme, t, chain, key, draft).value;
      assert prev != "";
      assert EnvelopeOf(m) == EnvelopeWith(draft, Some(prev));
      SameKeySigns(cfg.scheme, key, keys[draft.authorKeyId], m.signature, EnvelopeOf(m));
    }
  }

  lemma RenumberedOk(cfg: Config, keys: map<string, Key>, policies: seq<SignedPolicy>, m: Message, id: nat)
    requires MessageOk(cfg, keys, policies, m)
    ensures MessageOk(cfg, keys, policies, m.(id := id))
  {
    assert EnvelopeOf(m.(id := id)) == EnvelopeOf(m);
  }

  lemma LinksAfterMessage(policies: seq<SignedPolicy>, messages: seq<Message>, m: Message)
    requires LinksOk(policies, messages)
    requires ChainedUnder(policies, m.policyVersion) && messages != [] ==> m.prevHash == messages[|messages| - 1].hash
    ensures LinksOk(policies, messages + [m])
  {
  }

  lemma MessagesAfterMessage(cfg: Config, keys: map<string, Key>, policies: seq<SignedPolicy>, messages: seq<Message>,
      m: Message)
    requires MessagesOk(cfg, keys, policies, messages) && MessageOk(cfg, keys, policies, m)
    ensures MessagesOk(cfg, keys, policies, messages + [m])
  {
  }

  lemma StoredAfterMessage(cfg: Config, keys: map<string, Key>, t: Topic, m: Message)
    requires StoredOk(cfg, keys, t) && MessageOk(cfg, keys, t.policies, m)
    requires ChainedUnder(t.policies, m.policyVersion) && t.messages != [] ==>
      m.prevHash == t.messages[|t.messages| - 1].hash
    ensures StoredOk(cfg, keys, AppendMessage(t, m))
  {
    var t' := AppendMessage(t, m);
    var m' := m.(id := |t.messages| + 1);
    RenumberedOk(cfg, keys, t.policies, m, m'.id);
    MessagesAfterMessage(cfg, keys, t.policies, t.messages, m');
    LinksAfterMessage(t.policies, t.messages, m');
    AttestsStayOk(cfg, keys, t, keys, t');
    assert t'.messages == t.messages + [m'];
  }

  /** The state after an append that ends a call. */
  lemma AppendSafe(cfg: Config, s: System, s': System, call: nat)
    requires Safe(cfg, s) && s'.keys == s.keys && s'.calls == Without(s.calls, call)
    requires Grows(s.keys, s.topic, s.keys, s'.topic)
    requires Consistent(s'.topic) && StoredOk(cfg, s.keys, s'.topic) && ChecksOk(s') && HandedOk(s')
    ensures Safe(cfg, s')
  {
    CallsStayOk(cfg, s, s.keys, s'.topic, s'.calls);
  }

  lemma StoreMessageOk(cfg: Config, s: System, call: nat)
    requires HashesNonEmpty(cfg.scheme) && StoredOk(cfg, s.keys, s.topic)
    requires CanStoreMessage(cfg, s, call) && CallOk(cfg, s.keys, s.topic, s.calls[call])
    ensures StoredOk(cfg, s.keys, DoStoreMessage(cfg, s, call).topic)
    ensures var t' := DoStoreMessage(cfg, s, call).topic;
            t'.messages[|s.topic.messages|].policyVersion == s.calls[call].input.policyVersion
  {
    var c, t := s.calls[call], s.topic;
    var chain := c.stage.policy.document.chain;
    ChainedOk(cfg, s.keys, t, chain, c.key, c.stage.draft);
    StoredAfterMessage(cfg, s.keys, t, ChainMessage(cfg.scheme, t, chain, c.key, c.stage.draft).value);
  }

  lemma ChecksAfterMessage(s: System, m: Message, current: int)
    requires ChecksOk(s) && CheckedAt(current, m.policyVersion, s.topic.policies)
    ensures ChecksOk(s.(topic := AppendMessage(s.topic, m), messageChecks := s.messageChecks + [current]))
  {
  }

  lemma StoreMessageSafe(cfg: Config, s: System, call: nat)
    requires HashesNonEmpty(cfg.scheme) && Safe(cfg, s) && CanStoreMessage(cfg, s, call)
    ensures Safe(cfg, DoStoreMessage(cfg, s, call))
  {
    SafeCall(cfg, s, call);
    var c, t := s.calls[call], s.topic;
    var m := ChainMessage(cfg.scheme, t, c.stage.policy.document.chain, c.key, c.stage.draft).value;
    var s' := DoStoreMessage(cfg, s, call);
    StoreMessageOk(cfg, s, call);
    AppendMessageKeeps(t, m);
    ChecksAfterMessage(s, m, c.stage.current);
    AppendSafe(cfg, s, s', call);
  }

  lemma SupersededOk(cfg: Config, keys: map<string, Key>, t: Topic, a: Attestation, b: Attestation)
    requires AttestationOk(cfg, keys, t.policies, t.messages, a) && b == a.(supersededAt := b.supersededAt, id := b.id)
    ensures AttestationOk(cfg, keys, t.policies, t.messages, b)
  {
    assert AttestedEnvelope(b) == AttestedEnvelope(a);
  }

  lemma StoredAfterAttestation(cfg: Config, keys: map<string, Key>, t: Topic, a: Attestation)
    requires StoredOk(cfg, keys, t) && AttestationOk(cfg, keys, t.policies, t.messages, a)
    ensures StoredOk(cfg, keys, AppendAttestation(t, a))
  {
    var t' := AppendAttestation(t, a);
    forall i | 0 <= i < |t'.attests| ensures AttestationOk(cfg, keys, t.policies, t.messages, t'.attests[i]) {
      SupersededOk(cfg, keys, t, if i < |t.attests| then t.attests[i] else a, t'.attests[i]);
    }
  }

  lemma ChecksAfterAttestation(s: System, a: Attestation, current: int)
    requires ChecksOk(s) && CheckedAt(current, a.policyVersion, s.topic.policies)
    ensures ChecksOk(s.(topic := AppendAttestation(s.topic, a), attestChecks := s.attestChecks + [current]))
  {
  }

  lemma StoreAttestationSafe(cfg: Config, s: System, call: nat)
    requires Safe(cfg, s) && CanStoreAttestation(s, call)
    ensures Safe(cfg, DoStoreAttestation(s, call))
  {
    SafeCall(cfg, s, call);
    var c := s.calls[call];
    AppendAttestationKeeps(s.topic, c.attestStage.draft);
    StoredAfterAttestation(cfg, s.keys, s.topic, c.attestStage.draft);
    ChecksAfterAttestation(s, c.attestStage.draft, c.attestStage.current);
    AppendSafe(cfg, s, DoStoreAttestation(s, call), call);
  }

  lemma LinksAfterPolicy(cfg: Config, keys: map<string, Key>, t: Topic, policies': seq<SignedPolicy>)
    requires LinksOk(t.policies, t.messages) && MessagesOk(cfg, keys, t.policies, t.messages) && t.policies <= policies'
    ensures LinksOk(policies', t.messages)
  {
    forall i | 1 <= i < |t.messages| && ChainedUnder(policies', t.messages[i].policyVersion)
      ensures t.messages[i].prevHash == t.messages[i - 1].hash
    {
      var v := t.messages[i].policyVersion;
      assert MessageOk(cfg, keys, t.policies, t.messages[i]);
      assert policies'[v - 1] == t.policies[v - 1];
      assert ChainedUnder(t.policies, v);
    }
  }

  lemma StoredAfterPolicy(cfg: Config, keys: map<string, Key>, t: Topic, doc: Document, hash: string, now: int)
    requires StoredOk(cfg, keys, t) && Consistent(t) && PolicyOk(cfg, keys, doc)
    ensures StoredOk(cfg, keys, AppendPolicy(t, doc, hash, now))
  {
    var t' := AppendPolicy(t, doc, hash, now);
    NewVersionOk(cfg, keys, t, doc);
    MessagesStayOk(cfg, keys, t.policies, keys, t'.policies, t.messages);
    AttestsStayOk(cfg, keys, t, keys, t');
    LinksAfterPolicy(cfg, keys, t, t'.policies);
  }

  lemma NewVersionOk(cfg: Config, keys: map<string, Key>, t: Topic, doc: Document)
    requires Dense(t) && PolicyOk(cfg, keys, doc)
    ensures PolicyOk(cfg, keys, doc.(version := NextVersion(t)))
  {
    var doc' := doc.(version := NextVersion(t));
    forall c | c in doc'.conditions ensures ValidCondition(doc', doc'.conditions[c]) {
      assert ValidCondition(doc, doc.conditions[c]);
    }
  }

  lemma ChecksAfterPolicy(s: System, doc: Document, hash: string, now: int, calls: map<nat, Call>)
    requires ChecksOk(s) && HandedOk(s)
    ensures var s' := s.(topic := AppendPolicy(s.topic, doc, hash, now), calls := calls); ChecksOk(s') && HandedOk(s')
  {
  }

  lemma SafeInstall(cfg: Config, s: System, call: nat)
    requires Safe(cfg, s) && InstallingAt(s, call)
    ensures Consistent(s.topic) && StoredOk(cfg, s.keys, s.topic) && ChecksOk(s) && HandedOk(s)
    ensures PolicyOk(cfg, s.keys, s.calls[call].document)
  {
    SafeCall(cfg, s, call);
  }

  lemma StorePolicySafe(cfg: Config, s: System, call: nat, hash: string, now: int)
    requires Safe(cfg, s) && InstallingAt(s, call)
    ensures Safe(cfg, DoStorePolicy(s, call, hash, now))
  {
    var doc := s.calls[call].document;
    SafeInstall(cfg, s, call);
    AppendPolicyKeeps(s.topic, doc, hash, now);
    StoredAfterPolicy(cfg, s.keys, s.topic, doc, hash, now);
    ChecksAfterPolicy(s, doc, hash, now, Without(s.calls, call));
    AppendSafe(cfg, s, DoStorePolicy(s, call, hash, now), call);
  }

  lemma ConsumeKeepsConsistent(t: Topic, consumer: string, cond: Condition, views: seq<MessageView>, max: nat)
    requires Consistent(t) && |views| == |t.events| && max > 0
    ensures Consistent(AfterConsume(t, consumer, Consumed(t, consumer, cond, views, max)))
  {
    var q := Consumed(t, consumer, cond, views, max);
    var t' := AfterConsume(t, consumer, q);
    ConsumeOutcome(t, consumer, cond, views, max);
    forall id | id in q.done ensures 1 <= id <= |t.messages| {
      if id in Ids(q.out) { var m :| m in q.out && m.id == id; }
    }
    assert Dense(t') && LogExact(t');
  }

  lemma BatchIds(out: seq<Message>)
    ensures (set id | id in HandedIds(out)) == Ids(out)
  {
    var batch := HandedIds(out);
    forall id ensures id in batch <==> id in Ids(out) {
      if id in batch { var i :| 0 <= i < |batch| && batch[i] == id; assert out[i] in out; }
      if id in Ids(out) { var m :| m in out && m.id == id; var i :| 0 <= i < |out|
        && out[i] == m; assert batch[i] == id; }
    }
  }

  /** Handing out ids that are new and distinct repeats nothing. */
  lemma NoRepeatsAfter(before: seq<nat>, batch: seq<nat>)
    requires NoRepeats(before) && NoRepeats(batch) && forall i | 0 <= i < |batch| :: batch[i] !in before
    ensures NoRepeats(before + batch)
    ensures (set id | id in before + batch) == (set id | id in before) + (set id | id in batch)
  {
    var ids := before + batch;
    assert forall id :: id in ids <==> id in before || id in batch;
    forall i, j | 0 <= i < j < |ids| ensures ids[i] != ids[j] {
      if i < |before| <= j { assert batch[j - |before|] !in before; }
    }
  }

  lemma HandedStaysOk(s: System, consumer: string, q: Progress)
    requires HandedOk(s) && FreshBatch(s.topic, DeliveredTo(s.topic, consumer), q.out)
    requires q.done == DeliveredTo(s.topic, consumer) + Ids(q.out)
    ensures HandedOk(s.(topic := AfterConsume(s.topic, consumer, q),
                        handed := s.handed[consumer := HandedTo(s, consumer) + HandedIds(q.out)]))
  {
    var before, batch := HandedTo(s, consumer), HandedIds(q.out);
    assert (set id | id in before) == DeliveredTo(s.topic, consumer);
    BatchIds(q.out);
    assert forall i | 0 <= i < |batch| :: batch[i] == q.out[i].id && batch[i] !in before;
    NoRepeatsAfter(before, batch);
  }

  lemma FinishConsumeSafe(cfg: Config, s: System, call: nat, views: seq<MessageView>)
    requires Safe(cfg, s) && CanFinishConsume(s, call, views)
    ensures Safe(cfg, DoFinishConsume(s, call, views))
  {
    SafeCall(cfg, s, call);
    var c := s.calls[call];
    var q := Consumed(s.topic, c.consumer, c.cond, views, c.max);
    ConsumeOutcome(s.topic, c.consumer, c.cond, views, c.max);
    ConsumeKeepsConsistent(s.topic, c.consumer, c.cond, views, c.max);
    HandedStaysOk(s, c.consumer, q);
    var s' := DoFinishConsume(s, call, views);
    StoredStaysOk(cfg, s.keys, s.topic, s.keys, s'.topic);
    AppendSafe(cfg, s, s', call);
  }

  // ---- Every run --------------------------------------------------------------------

  lemma KeysStepSafe(cfg: Config, s: System, step: Step)
    requires Safe(cfg, s) && Enabled(cfg, s, step) && (step.RegisterKey? || step.RevokeKey?)
    ensures Safe(cfg, Apply(cfg, s, step))
  {
    KeyStepSafe(cfg, s, Apply(cfg, s, step).keys);
  }

  lemma CallsStepSafe(cfg: Config, s: System, step: Step)
    requires Safe(cfg, s) && Enabled(cfg, s, step) && Begins(step)
    ensures Safe(cfg, Apply(cfg, s, step))
  {
    if step.AcceptForPublish? {
      SafeCall(cfg, s, step.call);
      AcceptedVersion(s.topic, s.calls[step.call].input.policyVersion, s.calls[step.call].input.policyHash, step.now,
        cfg.grace);
    } else if step.AcceptForAttest? {
      SafeCall(cfg, s, step.call);
      AcceptedVersion(s.topic, s.calls[step.call].attestInput.policyVersion, "", step.now, cfg.grace);
    }
    CallStepSafe(cfg, s, step.call, Apply(cfg, s, step).calls[step.call]);
  }

  predicate OfPublish(step: Step) { step.LoadForPublish? || step.StoreMessage? }

  predicate OfAttest(step: Step) { step.LoadForAttest? || step.ReadMessage? || step.StoreAttestation? }

  predicate Begins(step: Step) {
    step.BeginPublish? || step.AcceptForPublish? || step.BeginAttest? || step.AcceptForAttest? ||
    step.BeginConsume? || step.BeginInstall?
  }

  lemma PublishStepSafe(cfg: Config, s: System, step: Step)
    requires HashesNonEmpty(cfg.scheme) && Safe(cfg, s) && Enabled(cfg, s, step) && OfPublish(step)
    ensures Safe(cfg, Apply(cfg, s, step))
  {
    if step.LoadForPublish? {
      LoadForPublishSafe(cfg, s, step.call, step.agent, step.stamp);
    } else {
      StoreMessageSafe(cfg, s, step.call);
    }
  }

  lemma AttestStepSafe(cfg: Config, s: System, step: Step)
    requires Safe(cfg, s) && Enabled(cfg, s, step) && OfAttest(step)
    ensures Safe(cfg, Apply(cfg, s, step))
  {
    if step.LoadForAttest? {
      LoadForAttestSafe(cfg, s, step.call, step.agent);
    } else if step.ReadMessage? {
      ReadMessageSafe(cfg, s, step.call, step.stamp);
    } else {
      StoreAttestationSafe(cfg, s, step.call);
    }
  }

  lemma EndStepSafe(cfg: Config, s: System, step: Step)
    requires Safe(cfg, s) && Enabled(cfg, s, step) && (step.FinishConsume? || step.StorePolicy? || step.Abort?)
    ensures Safe(cfg, Apply(cfg, s, step))
  {
    if step.FinishConsume? {
      FinishConsumeSafe(cfg, s, step.call, step.views);
    } else if step.StorePolicy? {
      StorePolicySafe(cfg, s, step.call, step.hash, step.now);
    } else {
      AbortSafe(cfg, s, step.call);
    }
  }

  lemma StepSafe(cfg: Config, s: System, step: Step)
    requires HashesNonEmpty(cfg.scheme) && Safe(cfg, s) && Enabled(cfg, s, step)
    ensures Safe(cfg, Apply(cfg, s, step))
  {
    if OfPublish(step) {
      PublishStepSafe(cfg, s, step);
    } else if OfAttest(step) {
      AttestStepSafe(cfg, s, step);
    } else if step.RegisterKey? || step.RevokeKey? {
      KeysStepSafe(cfg, s, step);
    } else if Begins(step) {
      CallsStepSafe(cfg, s, step);
    } else {
      EndStepSafe(cfg, s, step);
    }
  }

  lemma {:induction false} RunSafe(cfg: Config, s: System, steps: seq<Step>, s': System)
    requires HashesNonEmpty(cfg.scheme) && Safe(cfg, s) && Run(cfg, s, steps, s')
    ensures Safe(cfg, s')
    decreases |steps|
  {
    if steps != [] {
      StepSafe(cfg, s, steps[0]);
      RunSafe(cfg, Apply(cfg, s, steps[0]), steps[1..], s');
    }
  }

  /** Every state reachable from the empty service is safe. */
  lemma ReachableSafe(cfg: Config, steps: seq<Step>, s: System)
    requires HashesNonEmpty(cfg.scheme) && Run(cfg, Start, steps, s)
    ensures Safe(cfg, s)
  {
    RunSafe(cfg, Start, steps, s);
  }
}
