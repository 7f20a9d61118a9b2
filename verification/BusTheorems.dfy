/** The promises of the secure bus, over whole runs of the protocol. */
module BusTheorems {
  import opened Wrappers
  import opened Crypto
  import opened AgentKeys
  import opened Policy
  import opened Filter
  import opened Topic
  import opened TopicLaws
  import opened Delivery
  import opened Protocol
  import opened ProtocolSafety

  // ---- Append-only ------------------------------------------------------------------

  /** The same attestation, possibly superseded in between; superseded stays so. */
  predicate SameAttestation(a: Attestation, b: Attestation) {
    b == a.(supersededAt := b.supersededAt) && (a.supersededAt != None ==> b.supersededAt == a.supersededAt)
  }

  predicate AttestsGrow(a: seq<Attestation>, b: seq<Attestation>) {
    |a| <= |b| && forall i | 0 <= i < |a| :: SameAttestation(a[i], b[i])
  }

  predicate RevocationsStay(keys: map<string, Key>, keys': map<string, Key>) {
    forall id | id in keys && keys[id].revokedAt != None :: id in keys' && keys'[id].revokedAt != None
  }

  /** What a later state may differ in. */
  ghost predicate Later(s: System, s': System) {
    && Grows(s.keys, s.topic, s'.keys, s'.topic)
    && RevocationsStay(s.keys, s'.keys)
    && AttestsGrow(s.topic.attests, s'.topic.attests)
    && s.topic.events <= s'.topic.events
    && (forall c :: CursorOf(s.topic, c) <= CursorOf(s'.topic, c) && HandedTo(s, c) <= HandedTo(s', c))
  }

  lemma CallsLater(s: System, s': System)
    requires s'.keys == s.keys && s'.topic == s.topic && s'.handed == s.handed
    ensures Later(s, s')
  {
  }

  lemma KeysOnlyLater(s: System, s': System)
    requires s'.topic == s.topic && s'.handed == s.handed
    requires KeysGrow(s.keys, s'.keys) && RevocationsStay(s.keys, s'.keys)
    ensures Later(s, s')
  {
  }

  lemma KeysLater(cfg: Config, s: System, step: Step)
    requires Enabled(cfg, s, step) && (step.RegisterKey? || step.RevokeKey?)
    ensures Later(s, Apply(cfg, s, step))
  {
    KeysOnlyLater(s, Apply(cfg, s, step));
  }

  lemma AppendLater(s: System, s': System)
    requires s'.keys == s.keys && s'.handed == s.handed && s'.topic.cursors == s.topic.cursors
    requires s.topic.policies <= s'.topic.policies && s.topic.messages <= s'.topic.messages
      && s.topic.events <= s'.topic.events
    requires AttestsGrow(s.topic.attests, s'.topic.attests)
    ensures Later(s, s')
  {
  }

  lemma AttestationGrows(t: Topic, a: Attestation)
    ensures AttestsGrow(t.attests, AppendAttestation(t, a).attests)
  {
  }

  lemma StoreLater(cfg: Config, s: System, step: Step)
    requires Enabled(cfg, s, step) && (step.StoreMessage? || step.StoreAttestation? || step.StorePolicy?)
    ensures Later(s, Apply(cfg, s, step))
  {
    if step.StoreAttestation? { AttestationGrows(s.topic, s.calls[step.call].attestStage.draft); }
    AppendLater(s, Apply(cfg, s, step));
  }

  lemma HandedLater(s: System, s': System, consumer: string, q: Progress)
    requires s'.keys == s.keys && s'.topic == AfterConsume(s.topic, consumer, q)
      && CursorOf(s.topic, consumer) <= q.last
    requires s'.handed == s.handed[consumer := HandedTo(s, consumer) + HandedIds(q.out)]
    ensures Later(s, s')
  {
  }

  lemma SafeConsume(cfg: Config, s: System, call: nat)
    requires Safe(cfg, s) && ConsumingAt(s, call)
    ensures Consistent(s.topic) && s.calls[call].max > 0
  {
    SafeCall(cfg, s, call);
  }

  lemma ConsumeAdvances(t: Topic, consumer: string, cond: Condition, views: seq<MessageView>, max: nat)
    requires Consistent(t) && |views| == |t.events| && max > 0
    ensures CursorOf(t, consumer) <= Consumed(t, consumer, cond, views, max).last
  {
    ConsumeOutcome(t, consumer, cond, views, max);
  }

  lemma ConsumeLater(s: System, call: nat, views: seq<MessageView>)
    requires Consistent(s.topic) && CanFinishConsume(s, call, views) && s.calls[call].max > 0
    ensures Later(s, DoFinishConsume(s, call, views))
  {
    var c := s.calls[call];
    ConsumeAdvances(s.topic, c.consumer, c.cond, views, c.max);
    HandedLater(s, DoFinishConsume(s, call, views), c.consumer, Consumed(s.topic, c.consumer, c.cond, views, c.max));
  }

  /** Steps other than these leave keys, topic and history alone. */
  predicate Stores(step: Step) {
    step.StoreMessage? || step.StoreAttestation? || step.StorePolicy? || step.FinishConsume?
  }

  lemma OtherStepsKeepTopic(cfg: Config, s: System, step: Step)
    requires Enabled(cfg, s, step) && !Stores(step)
    ensures Apply(cfg, s, step).topic == s.topic && Apply(cfg, s, step).handed == s.handed
    ensures !step.RegisterKey? && !step.RevokeKey? ==> Apply(cfg, s, step).keys == s.keys
  {
  }

  lemma StepLater(cfg: Config, s: System, step: Step)
    requires Safe(cfg, s) && Enabled(cfg, s, step)
    ensures Later(s, Apply(cfg, s, step))
  {
    if step.FinishConsume? {
      SafeConsume(cfg, s, step.call);
      ConsumeLater(s, step.call, step.views);
    } else if Stores(step) {
      StoreLater(cfg, s, step);
    } else if step.RegisterKey? || step.RevokeKey? {
      KeysLater(cfg, s, step);
    } else {
      OtherStepsKeepTopic(cfg, s, step);
      CallsLater(s, Apply(cfg, s, step));
    }
  }

  lemma LaterTransitive(a: System, b: System, c: System)
    requires Later(a, b) && Later(b, c)
    ensures Later(a, c)
  {
    forall i | 0 <= i < |a.topic.attests| ensures SameAttestation(a.topic.attests[i], c.topic.attests[i]) {
      assert SameAttestation(a.topic.attests[i], b.topic.attests[i]) && SameAttestation(b.topic.attests[i],
        c.topic.attests[i]);
    }
    forall id | id in a.keys ensures id in c.keys && SameKey(a.keys[id], c.keys[id]) {
      assert SameKey(a.keys[id], b.keys[id]) && SameKey(b.keys[id], c.keys[id]);
    }
  }

  lemma StepThenLater(cfg: Config, s: System, step: Step, s': System)
    requires Safe(cfg, s) && Enabled(cfg, s, step) && Later(Apply(cfg, s, step), s')
    ensures Later(s, s')
  {
    StepLater(cfg, s, step);
    LaterTransitive(s, Apply(cfg, s, step), s');
  }

  /** Over any run: policies, messages and events are only appended, attestations
      only superseded, keys only revoked, cursors only move forward, and nothing a
      consumer was handed is taken back. */
  lemma {:induction false} RunLater(cfg: Config, s: System, steps: seq<Step>, s': System)
    requires HashesNonEmpty(cfg.scheme) && Safe(cfg, s) && Run(cfg, s, steps, s')
    ensures Later(s, s')
    decreases |steps|
  {
    if steps != [] {
      StepSafe(cfg, s, steps[0]);
      RunLater(cfg, Apply(cfg, s, steps[0]), steps[1..], s');
      StepThenLater(cfg, s, steps[0], s');
    }
  }

  // ---- At most once -----------------------------------------------------------------

  /** Whatever publishes, attestations, policy changes, conditions and consumers a
      run mixes: no message reaches a consumer twice, cursors stay within the log,
      and the log is one event per message and per attestation with dense ids. */
  lemma AtMostOnce(cfg: Config, steps: seq<Step>, s: System, consumer: string)
    requires HashesNonEmpty(cfg.scheme) && Run(cfg, Start, steps, s)
    ensures NoRepeats(HandedTo(s, consumer))
    ensures forall id :: id in HandedTo(s, consumer) <==> id in DeliveredTo(s.topic, consumer)
    ensures forall id | id in HandedTo(s, consumer) :: 1 <= id <= |s.topic.messages|
    ensures CursorOf(s.topic, consumer) <= |s.topic.events|
    ensures Dense(s.topic) && LogExact(s.topic) && |s.topic.events| == |s.topic.messages| + |s.topic.attests|
  {
    ReachableSafe(cfg, steps, s);
    LogCounts(s.topic);
    if consumer in s.handed {
      assert forall id :: id in s.handed[consumer] <==> id in s.topic.delivered[consumer];
    }
  }

  ghost predicate MatchedUnder(t: Topic, doc: Document, cond: Condition, id: nat) {
    1 <= id <= |t.messages| && exists v :: IsView(doc, t.attests, t.messages[id - 1], v) && Matches(cond, v)
  }

  lemma ViewAt(t: Topic, doc: Document, views: seq<MessageView>, k: nat)
    requires Dense(t) && AreViews(doc, t, views) && k < |views|
    ensures var id := t.events[k].messageId;
            1 <= id <= |t.messages| && IsView(doc, t.attests, t.messages[id - 1], views[k])
  {
    FindDense(t.messages, 0, t.events[k].messageId);
  }

  lemma MatchedView(t: Topic, doc: Document, cond: Condition, views: seq<MessageView>, m: Message)
    requires Dense(t) && AreViews(doc, t, views) && MatchedAt(t, cond, views, m)
    ensures MatchedUnder(t, doc, cond, m.id)
  {
    var k :| 0 <= k < |views| && t.events[k].messageId == m.id && Matches(cond, views[k]);
    ViewAt(t, doc, views, k);
  }

  lemma BatchMatched(t: Topic, doc: Document, consumer: string, cond: Condition, views: seq<MessageView>, max: nat)
    requires Consistent(t) && AreViews(doc, t, views) && max > 0
    ensures var out := Consumed(t, consumer, cond, views, max).out;
            && |out| <= max
            && forall i | 0 <= i < |out| ::
              out[i].id !in DeliveredTo(t, consumer) && MatchedUnder(t, doc, cond, out[i].id)
  {
    var out := Consumed(t, consumer, cond, views, max).out;
    ConsumeOutcome(t, consumer, cond, views, max);
    forall i | 0 <= i < |out| ensures MatchedUnder(t, doc, cond, out[i].id) {
      MatchedView(t, doc, cond, views, out[i]);
    }
  }

  /** Each message handed out was undelivered and matched, under a view the code
      could build at that moment. */
  lemma DeliveredMatched(cfg: Config, s: System, call: nat, views: seq<MessageView>)
    requires Safe(cfg, s) && CanFinishConsume(s, call, views)
    ensures var c := s.calls[call];
            var batch := HandedTo(DoFinishConsume(s, call, views), c.consumer)[|HandedTo(s, c.consumer)|..];
            && |batch| <= c.max
            && forall i | 0 <= i < |batch| ::
                 batch[i] !in DeliveredTo(s.topic, c.consumer) && MatchedUnder(s.topic, c.document, c.cond, batch[i])
  {
    SafeConsume(cfg, s, call);
    var c, t := s.calls[call], s.topic;
    var out := Consumed(t, c.consumer, c.cond, views, c.max).out;
    BatchMatched(t, c.document, c.consumer, c.cond, views, c.max);
    assert HandedTo(DoFinishConsume(s, call, views), c.consumer)[|HandedTo(s, c.consumer)|..] == HandedIds(out);
  }

  // ---- No lost delivery -------------------------------------------------------------

  /** In the run, the consumer always asks for the same condition, under policies
      that give each key that has signed something by then the one name doc gives it.
      Policies may change otherwise (agents with new keys, other public keys, rules),
      and other consumers may ask for what they like. */
  ghost predicate AlwaysAsks(cfg: Config, s: System, steps: seq<Step>, consumer: string, doc: Document, cond: Condition)
    decreases |steps|
  {
    steps != [] && Enabled(cfg, s, steps[0]) ==>
      && (steps[0].FinishConsume? && s.calls[steps[0].call].consumer == consumer ==>
            s.calls[steps[0].call].cond == cond && NamesAs(doc, s.calls[steps[0].call].document, KeysIn(s.topic)))
      && AlwaysAsks(cfg, Apply(cfg, s, steps[0]), steps[1..], consumer, doc, cond)
  }

  lemma StoreLosesNothing(cfg: Config, s: System, step: Step, consumer: string, doc: Document, cond: Condition)
    requires Safe(cfg, s) && Enabled(cfg, s, step) && (step.StoreMessage? || step.StoreAttestation?
      || step.StorePolicy?)
    requires NothingLost(s.topic, doc, cond, consumer)
    ensures NothingLost(Apply(cfg, s, step).topic, doc, cond, consumer)
  {
    SafeCall(cfg, s, step.call);
    var c, t := s.calls[step.call], s.topic;
    if step.StoreMessage? {
      var m := ChainMessage(cfg.scheme, t, c.stage.policy.document.chain, c.key, c.stage.draft).value;
      MessageLosesNothing(t, m, doc, cond, consumer);
    } else if step.StoreAttestation? {
      AttestationLosesNothing(t, c.attestStage.draft, doc, cond, consumer);
    } else {
      PolicyLosesNothing(t, Apply(cfg, s, step).topic, doc, cond, consumer);
    }
  }

  lemma PolicyLosesNothing(t: Topic, t': Topic, doc: Document, cond: Condition, consumer: string)
    requires NothingLost(t, doc, cond, consumer) && t' == t.(policies := t'.policies)
    ensures NothingLost(t', doc, cond, consumer)
  {
    forall i | 0 <= i < |t'.messages|
      ensures t'.messages[i].id in DeliveredTo(t', consumer) || !MatchesNow(t', doc, cond, t'.messages[i])
        || Announced(t', consumer, t'.messages[i].id)
    {
      if Announced(t, consumer, t.messages[i].id) { StaysAnnounced(t, t', consumer, t.messages[i].id); }
    }
  }

  lemma FinishLosesNothing(cfg: Config, s: System, call: nat, views: seq<MessageView>, consumer: string,
      doc: Document, cond: Condition)
    requires Safe(cfg, s) && CanFinishConsume(s, call, views)
    requires NothingLost(s.topic, doc, cond, consumer)
    requires s.calls[call].consumer == consumer ==>
               s.calls[call].cond == cond && NamesAs(doc, s.calls[call].document, KeysIn(s.topic))
    ensures NothingLost(DoFinishConsume(s, call, views).topic, doc, cond, consumer)
  {
    SafeCall(cfg, s, call);
    var c := s.calls[call];
    if c.consumer == consumer {
      ConsumeLosesNothing(s.topic, doc, c.document, cond, consumer, views, c.max);
    } else {
      OthersLoseNothing(s.topic, doc, cond, consumer, c.consumer, Consumed(s.topic, c.consumer, c.cond, views, c.max));
    }
  }

  /** No lost delivery: in every state of such a run each undelivered message that
      matches now still has an event above the consumer's cursor. */
  lemma {:induction false} RunLosesNothing(cfg: Config, s: System, steps: seq<Step>, s': System, consumer: string,
      doc: Document, cond: Condition)
    requires HashesNonEmpty(cfg.scheme) && Safe(cfg, s) && Run(cfg, s, steps, s')
    requires AlwaysAsks(cfg, s, steps, consumer, doc, cond)
    requires NothingLost(s.topic, doc, cond, consumer)
    ensures NothingLost(s'.topic, doc, cond, consumer)
    decreases |steps|
  {
    if steps != [] {
      var step := steps[0];
      var t := Apply(cfg, s, step);
      StepSafe(cfg, s, step);
      if step.FinishConsume? {
        FinishLosesNothing(cfg, s, step.call, step.views, consumer, doc, cond);
      } else if Stores(step) {
        StoreLosesNothing(cfg, s, step, consumer, doc, cond);
      } else {
        OtherStepsKeepTopic(cfg, s, step);
      }
      RunLosesNothing(cfg, t, steps[1..], s', consumer, doc, cond);
    }
  }

  lemma ShortBatch(s: System, call: nat, views: seq<MessageView>, doc: Document)
    requires CanFinishConsume(s, call, views) && Consistent(s.topic) && s.calls[call].max > 0
    requires NamesAs(doc, s.calls[call].document, KeysIn(s.topic))
    requires NothingLost(s.topic, doc, s.calls[call].cond, s.calls[call].consumer)
    requires |HandedTo(DoFinishConsume(s, call, views), s.calls[call].consumer)| < |HandedTo(s,
      s.calls[call].consumer)| + s.calls[call].max
    ensures var s' := DoFinishConsume(s, call, views);
            FullScan(s'.topic, doc, s.calls[call].cond) <= DeliveredTo(s'.topic, s.calls[call].consumer)
  {
    var c := s.calls[call];
    ShortBatchMeansCaughtUp(s.topic, doc, c.document, c.cond, c.consumer, views, c.max);
  }

  /** Consume agrees with a plain scan: when such a consumer is handed less than it
      asked for, every message that matches now has been delivered to it. */
  lemma CaughtUp(cfg: Config, steps: seq<Step>, s: System, call: nat, views: seq<MessageView>, doc: Document)
    requires HashesNonEmpty(cfg.scheme) && Run(cfg, Start, steps, s) && CanFinishConsume(s, call, views)
    requires NamesAs(doc, s.calls[call].document, KeysIn(s.topic))
    requires AlwaysAsks(cfg, Start, steps, s.calls[call].consumer, doc, s.calls[call].cond)
    requires |HandedTo(DoFinishConsume(s, call, views), s.calls[call].consumer)| < |HandedTo(s,
      s.calls[call].consumer)| + s.calls[call].max
    ensures var s' := DoFinishConsume(s, call, views);
            FullScan(s'.topic, doc, s.calls[call].cond) <= DeliveredTo(s'.topic, s.calls[call].consumer)
  {
    FromStart(cfg, steps, s, s.calls[call].consumer, doc, s.calls[call].cond);
    ReachableConsume(cfg, steps, s, call);
    ShortBatch(s, call, views, doc);
  }

  lemma FromStart(cfg: Config, steps: seq<Step>, s: System, consumer: string, doc: Document, cond: Condition)
    requires HashesNonEmpty(cfg.scheme) && Run(cfg, Start, steps, s)
    requires AlwaysAsks(cfg, Start, steps, consumer, doc, cond)
    ensures NothingLost(s.topic, doc, cond, consumer)
  {
    RunLosesNothing(cfg, Start, steps, s, consumer, doc, cond);
  }

  lemma ReachableConsume(cfg: Config, steps: seq<Step>, s: System, call: nat)
    requires HashesNonEmpty(cfg.scheme) && Run(cfg, Start, steps, s) && ConsumingAt(s, call)
    ensures Consistent(s.topic) && s.calls[call].max > 0
  {
    ReachableSafe(cfg, steps, s);
    SafeConsume(cfg, s, call);
  }

  // ---- Publish and Attest, then Verify ----------------------------------------------

  /** Whatever was accepted verifies in every later state: the message is still
      stored with the same hash, the hash is that of its envelope, and its author's
      key, revoked or not, verifies the signature. */
  lemma MessageVerifiesForever(cfg: Config, steps: seq<Step>, s: System, later: seq<Step>, s': System, i: nat)
    requires HashesNonEmpty(cfg.scheme) && Run(cfg, Start, steps, s) && Run(cfg, s, later, s')
    requires i < |s.topic.messages|
    ensures i < |s'.topic.messages| && s'.topic.messages[i] == s.topic.messages[i]
    ensures Genuine(cfg.scheme, s'.keys, s.topic.messages[i])
  {
    ReachableSafe(cfg, steps, s);
    RunLater(cfg, s, later, s');
    RunSafe(cfg, s, later, s');
    assert MessageOk(cfg, s'.keys, s'.topic.policies, s'.topic.messages[i]);
  }

  lemma StoredIsGenuine(cfg: Config, s: System, i: nat)
    requires Safe(cfg, s) && i < |s.topic.attests|
    ensures GenuineAttestation(cfg.scheme, s.keys, s.topic.attests[i]) && RefersTo(s.topic.messages, s.topic.attests[i])
  {
    assert AttestationOk(cfg, s.keys, s.topic.policies, s.topic.messages, s.topic.attests[i]);
  }

  lemma SameRefersTo(messages: seq<Message>, a: Attestation, b: Attestation)
    requires SameAttestation(a, b) && RefersTo(messages, b)
    ensures RefersTo(messages, a)
  {
  }

  /** The same for attestations, superseded or not; the message hash they carry is
      still the hash of their message. */
  lemma AttestationVerifiesForever(cfg: Config, steps: seq<Step>, s: System, later: seq<Step>, s': System, i: nat)
    requires HashesNonEmpty(cfg.scheme) && Run(cfg, Start, steps, s) && Run(cfg, s, later, s')
    requires i < |s.topic.attests|
    ensures i < |s'.topic.attests| && SameAttestation(s.topic.attests[i], s'.topic.attests[i])
    ensures GenuineAttestation(cfg.scheme, s'.keys, s'.topic.attests[i])
    ensures RefersTo(s'.topic.messages, s.topic.attests[i])
  {
    ReachableSafe(cfg, steps, s);
    RunLater(cfg, s, later, s');
    RunSafe(cfg, s, later, s');
    StoredIsGenuine(cfg, s', i);
    SameRefersTo(s'.topic.messages, s.topic.attests[i], s'.topic.attests[i]);
  }

  // ---- Authorisation under interleaving ---------------------------------------------

  /** Every stored message and attestation names an existing policy version in which
      an agent holding its key may act, and that version was the newest or one
      behind when the call was checked; versions are dense. */
  lemma OnlyAuthorised(cfg: Config, steps: seq<Step>, s: System)
    requires HashesNonEmpty(cfg.scheme) && Run(cfg, Start, steps, s)
    ensures forall i | 0 <= i < |s.topic.policies| :: s.topic.policies[i].version == i + 1
    ensures |s.messageChecks| == |s.topic.messages| && |s.attestChecks| == |s.topic.attests|
    ensures forall i | 0 <= i < |s.topic.messages| ::
              var m := s.topic.messages[i];
              && Authorised(s.topic.policies, m.policyVersion, m.authorKeyId, ToPublish)
              && CheckedAt(s.messageChecks[i], m.policyVersion, s.topic.policies)
    ensures forall i | 0 <= i < |s.topic.attests| ::
              var a := s.topic.attests[i];
              && Authorised(s.topic.policies, a.policyVersion, a.signerKeyId, ToAttest)
              && CheckedAt(s.attestChecks[i], a.policyVersion, s.topic.policies)
  {
    ReachableSafe(cfg, steps, s);
    forall i | 0 <= i < |s.topic.messages| ensures MessageOk(cfg, s.keys, s.topic.policies, s.topic.messages[i]) {
    }
    forall i | 0 <= i < |s.topic.attests|
      ensures AttestationOk(cfg, s.keys, s.topic.policies, s.topic.messages, s.topic.attests[i])
    {
    }
  }

  predicate UsesKey(c: Call, keyId: string) {
    (c.Publishing? && c.input.keyId == keyId) || (c.Attesting? && c.attestInput.keyId == keyId)
  }

  predicate RevokedIn(s: System, keyId: string) {
    keyId in s.keys && s.keys[keyId].revokedAt != None
  }

  /** The calls in flight that read the key. */
  function InFlight(s: System, keyId: string): set<nat> {
    set id | id in s.calls && UsesKey(s.calls[id], keyId)
  }

  function MessagesBy(messages: seq<Message>, keyId: string): nat {
    if messages == [] then 0 else
      MessagesBy(messages[..|messages| - 1], keyId) + (if messages[|messages| - 1].authorKeyId == keyId then 1 else 0)
  }

  function AttestsBy(attests: seq<Attestation>, keyId: string): nat {
    if attests == [] then 0 else
      AttestsBy(attests[..|attests| - 1], keyId) + (if attests[|attests| - 1].signerKeyId == keyId then 1 else 0)
  }

  /** How much the topic holds that was signed with the key. */
  function StoredBy(t: Topic, keyId: string): nat { MessagesBy(t.messages, keyId) + AttestsBy(t.attests, keyId) }

  lemma {:induction false} SameSigners(a: seq<Attestation>, b: seq<Attestation>, keyId: string)
    requires |a| == |b| && forall i | 0 <= i < |a| :: a[i].signerKeyId == b[i].signerKeyId
    ensures AttestsBy(a, keyId) == AttestsBy(b, keyId)
  {
    if a != [] { SameSigners(a[..|a| - 1], b[..|b| - 1], keyId); }
  }

  lemma MessageCounts(t: Topic, m: Message, keyId: string)
    ensures StoredBy(AppendMessage(t, m), keyId) == StoredBy(t, keyId) + if m.authorKeyId == keyId then 1 else 0
  {
    var after := AppendMessage(t, m).messages;
    assert after[..|after| - 1] == t.messages;
  }

  lemma AttestationCounts(t: Topic, a: Attestation, keyId: string)
    ensures StoredBy(AppendAttestation(t, a), keyId) == StoredBy(t, keyId) + if a.signerKeyId == keyId then 1 else 0
  {
    var after := AppendAttestation(t, a).attests;
    SameSigners(t.attests, after[..|after| - 1], keyId);
  }

  /** What one step may do to a revoked key: no call starts with it, and what is newly
      stored under it uses up a call in flight. */
  ghost predicate OnlyUsesUp(s: System, s': System, keyId: string) {
    && InFlight(s', keyId) <= InFlight(s, keyId)
    && StoredBy(s'.topic, keyId) + |InFlight(s', keyId)| <= StoredBy(s.topic, keyId) + |InFlight(s, keyId)|
  }

  lemma NoneStarts(s: System, s': System, keyId: string)
    requires s'.topic.messages == s.topic.messages && s'.topic.attests == s.topic.attests
    requires forall id | id in s'.calls && UsesKey(s'.calls[id], keyId) :: id in s.calls && UsesKey(s.calls[id], keyId)
    ensures OnlyUsesUp(s, s', keyId)
  {
    SubsetSize(InFlight(s', keyId), InFlight(s, keyId));
  }

  lemma {:induction false} SubsetSize(a: set<nat>, b: set<nat>)
    requires a <= b
    ensures |a| <= |b|
  {
    assert b == a + (b - a);
  }

  lemma EndsOne(s: System, s': System, call: nat, keyId: string)
    requires call in s.calls && s'.calls == Without(s.calls, call)
    requires StoredBy(s'.topic, keyId) == StoredBy(s.topic, keyId) + if UsesKey(s.calls[call], keyId) then 1 else 0
    ensures OnlyUsesUp(s, s', keyId)
  {
    assert InFlight(s', keyId) == InFlight(s, keyId) - {call};
    assert call in InFlight(s, keyId) <==> UsesKey(s.calls[call], keyId);
  }

  lemma StoresUnderItsKey(cfg: Config, s: System, call: nat, keyId: string)
    requires CanStoreMessage(cfg, s, call) && CallOk(cfg, s.keys, s.topic, s.calls[call])
    ensures OnlyUsesUp(s, DoStoreMessage(cfg, s, call), keyId)
  {
    var c := s.calls[call];
    var m := ChainMessage(cfg.scheme, s.topic, c.stage.policy.document.chain, c.key, c.stage.draft).value;
    MessageCounts(s.topic, m, keyId);
    EndsOne(s, DoStoreMessage(cfg, s, call), call, keyId);
  }

  lemma AttestsUnderItsKey(cfg: Config, s: System, call: nat, keyId: string)
    requires CanStoreAttestation(s, call) && CallOk(cfg, s.keys, s.topic, s.calls[call])
    ensures OnlyUsesUp(s, DoStoreAttestation(s, call), keyId)
  {
    AttestationCounts(s.topic, s.calls[call].attestStage.draft, keyId);
    EndsOne(s, DoStoreAttestation(s, call), call, keyId);
  }

  lemma OthersStartNone(cfg: Config, s: System, step: Step, keyId: string)
    requires Enabled(cfg, s, step) && RevokedIn(s, keyId) && !step.StoreMessage? && !step.StoreAttestation?
    ensures OnlyUsesUp(s, Apply(cfg, s, step), keyId)
  {
    NoneStarts(s, Apply(cfg, s, step), keyId);
  }

  lemma RevokedStep(cfg: Config, s: System, step: Step, keyId: string)
    requires Safe(cfg, s) && Enabled(cfg, s, step) && RevokedIn(s, keyId)
    ensures OnlyUsesUp(s, Apply(cfg, s, step), keyId)
  {
    if step.StoreMessage? {
      SafeCall(cfg, s, step.call);
      StoresUnderItsKey(cfg, s, step.call, keyId);
    } else if step.StoreAttestation? {
      SafeCall(cfg, s, step.call);
      AttestsUnderItsKey(cfg, s, step.call, keyId);
    } else {
      OthersStartNone(cfg, s, step, keyId);
    }
  }

  /** Any call begun after the revocation of its key fails: the calls using the key
      are among those in flight when it was revoked, and each of them stores at most
      once; with none in flight nothing under that key is ever stored again. */
  lemma {:induction false} RevokedKeyIsOut(cfg: Config, s: System, steps: seq<Step>, s': System, keyId: string)
    requires HashesNonEmpty(cfg.scheme) && Safe(cfg, s) && Run(cfg, s, steps, s') && RevokedIn(s, keyId)
    ensures RevokedIn(s', keyId) && InFlight(s', keyId) <= InFlight(s, keyId)
    ensures StoredBy(s'.topic, keyId) + |InFlight(s', keyId)| <= StoredBy(s.topic, keyId) + |InFlight(s, keyId)|
    decreases |steps|
  {
    if steps != [] {
      var t := Apply(cfg, s, steps[0]);
      RevokedStep(cfg, s, steps[0], keyId);
      StepLater(cfg, s, steps[0]);
      StepSafe(cfg, s, steps[0]);
      RevokedKeyIsOut(cfg, t, steps[1..], s', keyId);
    }
  }

  // ---- Tamper evidence --------------------------------------------------------------

  /** Every message was published under a chained policy. */
  ghost predicate AllChained(t: Topic) {
    forall i | 0 <= i < |t.messages| :: ChainedUnder(t.policies, t.messages[i].policyVersion)
  }

  /** Hashes are those of the envelopes, and each message names the hash before it. */
  ghost predicate Linked(c: Scheme, messages: seq<Message>) {
    && (forall i | 0 <= i < |messages| :: messages[i].hash == c.hashOf(EnvelopeOf(messages[i])))
    && (forall i | 1 <= i < |messages| :: messages[i].prevHash == messages[i - 1].hash)
  }

  lemma ReachableLinked(cfg: Config, steps: seq<Step>, s: System)
    requires HashesNonEmpty(cfg.scheme) && Run(cfg, Start, steps, s) && AllChained(s.topic)
    ensures Linked(cfg.scheme, s.topic.messages)
  {
    ReachableSafe(cfg, steps, s);
    forall i | 0 <= i < |s.topic.messages|
      ensures s.topic.messages[i].hash == cfg.scheme.hashOf(EnvelopeOf(s.topic.messages[i]))
    {
      assert MessageOk(cfg, s.keys, s.topic.policies, s.topic.messages[i]);
    }
  }

  ghost predicate SameUpTo(a: seq<Message>, b: seq<Message>, n: nat)
    requires n < |a| && n < |b|
  {
    forall i | 0 <= i <= n :: EnvelopeOf(a[i]) == EnvelopeOf(b[i]) && a[i].hash == b[i].hash
  }

  lemma {:induction false} LinkedHistoriesAgree(c: Scheme, a: seq<Message>, b: seq<Message>, n: nat)
    requires MessageHashesDetermine(c) && Linked(c, a) && Linked(c, b)
    requires n < |a| && n < |b| && a[n].hash == b[n].hash
    ensures SameUpTo(a, b, n)
  {
    assert EnvelopeOf(a[n]) == EnvelopeOf(b[n]);
    if n > 0 {
      assert a[n].prevHash == b[n].prevHash;
      LinkedHistoriesAgree(c, a, b, n - 1);
    }
  }

  /** Two chained histories of equal length whose last hashes agree have the same
      envelope at every position: no earlier message can be changed unnoticed.
      MessageHashesDetermine follows from a collision-free digest of the canonical
      JSON text (CanonicalHashesDetermine). */
  lemma TamperEvident(cfgA: Config, stepsA: seq<Step>, a: System, cfgB: Config, stepsB: seq<Step>, b: System)
    requires cfgA.scheme == cfgB.scheme && HashesNonEmpty(cfgA.scheme) && MessageHashesDetermine(cfgA.scheme)
    requires Run(cfgA, Start, stepsA, a) && Run(cfgB, Start, stepsB, b)
    requires AllChained(a.topic) && AllChained(b.topic)
    requires |a.topic.messages| == |b.topic.messages| > 0
    requires a.topic.messages[|a.topic.messages| - 1].hash == b.topic.messages[|b.topic.messages| - 1].hash
    ensures SameUpTo(a.topic.messages, b.topic.messages, |a.topic.messages| - 1)
  {
    ReachableLinked(cfgA, stepsA, a);
    ReachableLinked(cfgB, stepsB, b);
    LinkedHistoriesAgree(cfgA.scheme, a.topic.messages, b.topic.messages, |a.topic.messages| - 1);
  }
}
