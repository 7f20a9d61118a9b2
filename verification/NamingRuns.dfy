/** Runs that lose a message to a consumer that passes the same arguments in every call:
    a policy renames a key, two agents of the only policy share a key, a policy gives a
    condition's name another meaning. */
module NamingRuns {
  import opened Wrappers
  import opened Consumers
  import opened AgentKeys
  import opened Policy
  import opened Filter
  import opened Topic
  import opened Delivery
  import opened Protocol
  import opened BusTheorems
  import opened SecureBus
  import opened SecureBusRuns

  // ---- What a consumer asks -------------------------------------------------------------

  /** The arguments of a Consume: a condition by name, or one of the caller's own. */
  datatype Ask = Ask(condition: string, adHoc: Option<Condition>)

  function Resolved(doc: Document, ask: Ask): Option<Condition> { ResolveCondition(doc, ask.condition, ask.adHoc) }

  /** Every Consume the consumer begins in these steps has these arguments. */
  predicate AsksOnly(steps: seq<Step>, consumer: string, ask: Ask) {
    forall i | 0 <= i < |steps| && steps[i].BeginConsume? && ConsumerName(steps[i].consumer) == consumer ::
      Ask(steps[i].condition, steps[i].adHoc) == ask
  }

  lemma AsksOnlyJoined(a: seq<Step>, b: seq<Step>, consumer: string, ask: Ask)
    requires AsksOnly(a, consumer, ask) && AsksOnly(b, consumer, ask)
    ensures AsksOnly(a + b, consumer, ask)
  {
  }

  /** The policies put so far are these documents, in this order. */
  predicate PoliciesAre(t: Topic, docs: seq<Document>) {
    && |t.policies| == |docs|
    && forall i | 0 <= i < |docs| :: t.policies[i].document == docs[i].(version := i + 1)
  }

  // ---- The topic along the run --------------------------------------------------------

  /** The policy d as version 1. */
  function Installed(d: Document): Topic { AppendPolicy(EmptyTopic, d, "", 0) }

  function WithMessage(d: Document, m: Message): Topic { AppendMessage(Installed(d), m) }

  /** The consumer "c" has read past the message without being handed it. */
  function PassedBy(d: Document, m: Message): Topic { AfterConsume(WithMessage(d, m), "c", Progress(1, {}, [])) }

  function Replaced(d: Document, m: Message, e: Document): Topic { AppendPolicy(PassedBy(d, m), e, "", 0) }

  lemma FirstPass(d: Document, m: Message, cond: Condition, view: MessageView, max: nat)
    requires !Matches(cond, view)
    ensures Consumed(WithMessage(d, m), "c", cond, [view], max) == Progress(1, {}, [])
  {
    var t := WithMessage(d, m);
    assert t.events == [Event(1, MessagePublished, 1)];
    assert Scan(t, cond, [view], max, 1, Progress(1, {}, [])) == Progress(1, {}, []);
  }

  /** The topic holds m alone, and "c" has passed it. */
  predicate OnlyPassed(t: Topic, m: Message) {
    && t.events == [Event(1, MessagePublished, 1)] && t.messages == [m] && m.id == 1 && t.attests == []
    && CursorOf(t, "c") == 1 && DeliveredTo(t, "c") == {}
  }

  lemma SecondPass(t: Topic, m: Message, cond: Condition, view: MessageView, max: nat)
    requires OnlyPassed(t, m)
    ensures Consumed(t, "c", cond, [view], max) == Progress(1, {}, [])
  {
    assert Scan(t, cond, [view], max, 1, Progress(1, {}, [])) == Progress(1, {}, []);
  }

  function NamedView(keyId: string, name: string): MessageView { MessageView(keyId, name, []) }

  lemma OneView(doc: Document, t: Topic, m: Message, name: string)
    requires t.events == [Event(1, MessagePublished, 1)] && t.messages == [m] && m.id == 1 && t.attests == []
    requires Answers(doc, m.authorKeyId, name)
    ensures AreViews(doc, t, [NamedView(m.authorKeyId, name)])
  {
    assert FindMessage(t.messages, 1) == Some(m);
  }

  // ---- The run --------------------------------------------------------------------------

  /** A fresh service: nothing in the topic, no call in flight, nothing handed out. */
  predicate Idle(s: System) { s.topic == EmptyTopic && s.calls == map[] && s.handed == map[] }

  /** The first message of the topic, published under version 1 by an agent that d
      calls name. */
  predicate CanPublishFirst(cfg: Config, s: System, d: Document, input: PublishInput, name: string) {
    && MayUseKey(s, input.keyId, input.subjectKey, input.tokenId)
    && input.policyVersion == 1 && input.policyHash == ""
    && NamesKey(d, input.keyId, name, true) && May(d, ToPublish, name)
    && var draft := DraftMessage(cfg.scheme, cfg.objectId, input, "");
    && SignedBy(cfg.scheme, s.keys[input.keyId], draft.signature, EnvelopeOf(draft))
  }

  function FirstMessage(cfg: Config, input: PublishInput): Message {
    DraftMessage(cfg.scheme, cfg.objectId, input, "").(id := 1)
  }

  lemma PublishesFirst(cfg: Config, s: System, d: Document, input: PublishInput, name: string, draft: Message)
    requires Idle(s) && CanPublishFirst(cfg, s, d, input, name)
    requires draft == DraftMessage(cfg.scheme, cfg.objectId, input, "")
    ensures var t := Installed(d);
            && PolicyWithVersion(t.policies, 1) == Some(t.policies[0])
            && PublishOutcome(cfg, t, s.keys, input, 0, "", Some(name)) == Result.Ok(draft)
  {
    var t := Installed(d);
    assert t.policies == [SignedPolicy(d.(version := 1), "", 1, 0)];
  }

  /** Behind the first message, with the given topic. */
  function Behind(s: System, t: Topic): System {
    s.(topic := t, handed := map["c" := []], messageChecks := s.messageChecks + [1])
  }

  /** Once the first message is published. */
  function Holding(s: System, d: Document, m: Message): System {
    s.(topic := WithMessage(d, m), messageChecks := s.messageChecks + [1])
  }

  lemma PassLeaves(s: System, d: Document, m: Message)
    requires Idle(s)
    ensures AfterBatch(Holding(s, d, m), "c", Progress(1, {}, [])) == Behind(s, PassedBy(d, m))
  {
  }

  lemma AskThen(ask: Ask, views: seq<MessageView>, rest: seq<Step>)
    requires AsksOnly(rest, "c", ask)
    ensures AsksOnly(ConsumeSteps(0, "c", ask.condition, ask.adHoc, 10, views) + rest, "c", ask)
  {
    AsksOnlyJoined(ConsumeSteps(0, "c", ask.condition, ask.adHoc, 10, views), rest, "c", ask);
  }

  /** From the first message on the consumer passes it under one name. */
  lemma PassThen(cfg: Config, s: System, d: Document, m: Message, name: string, ask: Ask, cond: Condition,
      rest: seq<Step>, s': System) returns (steps: seq<Step>)
    requires Idle(s) && m.id == 1 && NamesKey(d, m.authorKeyId, name, true)
    requires Resolved(d, ask) == Some(cond) && !Matches(cond, NamedView(m.authorKeyId, name))
    requires Run(cfg, Behind(s, PassedBy(d, m)), rest, s') && AsksOnly(rest, "c", ask)
    ensures Run(cfg, Holding(s, d, m), steps, s')
    ensures AsksOnly(steps, "c", ask)
  {
    var s2 := Holding(s, d, m);
    var view := NamedView(m.authorKeyId, name);
    OneView(d.(version := 1), s2.topic, m, name);
    FirstPass(d, m, cond, view, 10);
    PassLeaves(s, d, m);
    ConsumeThen(cfg, s2, 0, "c", ask.condition, ask.adHoc, 10, cond, [view], rest, s');
    AskThen(ask, [view], rest);
    steps := ConsumeSteps(0, "c", ask.condition, ask.adHoc, 10, [view]) + rest;
  }

  function OpeningSteps(d: Document, input: PublishInput, name: string, rest: seq<Step>): seq<Step> {
    InstallSteps(0, d, "", 0) + (PublishSteps(0, input, 0, "", name) + rest)
  }

  lemma OpeningAsksNothing(d: Document, input: PublishInput, name: string, rest: seq<Step>, ask: Ask)
    requires AsksOnly(rest, "c", ask)
    ensures AsksOnly(OpeningSteps(d, input, name, rest), "c", ask)
  {
    AsksOnlyJoined(PublishSteps(0, input, 0, "", name), rest, "c", ask);
    AsksOnlyJoined(InstallSteps(0, d, "", 0), PublishSteps(0, input, 0, "", name) + rest, "c", ask);
  }

  lemma PublishOpens(cfg: Config, s: System, d: Document, input: PublishInput, name: string, rest: seq<Step>,
      s': System)
    requires Idle(s) && CanPublishFirst(cfg, s, d, input, name)
    requires Run(cfg, Holding(s, d, FirstMessage(cfg, input)), rest, s')
    ensures Run(cfg, AfterInstall(s, d, "", 0), PublishSteps(0, input, 0, "", name) + rest, s')
  {
    var draft := DraftMessage(cfg.scheme, cfg.objectId, input, "");
    var s1 := AfterInstall(s, d, "", 0);
    PublishesFirst(cfg, s, d, input, name, draft);
    assert AppendMessage(s1.topic, draft) == WithMessage(d, FirstMessage(cfg, input));
    PublishThen(cfg, s1, 0, input, 0, "", Some(name), rest, s');
  }

  /** d is put, the first message is published, and the rest follows. */
  lemma OpenThen(cfg: Config, s: System, d: Document, input: PublishInput, name: string, rest: seq<Step>, s': System)
    requires Idle(s) && Installable(cfg, s.keys, d) && CanPublishFirst(cfg, s, d, input, name)
    requires Run(cfg, Holding(s, d, FirstMessage(cfg, input)), rest, s')
    ensures Run(cfg, s, OpeningSteps(d, input, name, rest), s')
  {
    PublishOpens(cfg, s, d, input, name, rest, s');
    PutPolicyThen(cfg, s, 0, d, "", 0, PublishSteps(0, input, 0, "", name) + rest, s');
  }

  /** And the consumer passes the message before the rest. */
  lemma OpenAndPass(cfg: Config, s: System, d: Document, input: PublishInput, name: string, ask: Ask, cond: Condition,
      rest: seq<Step>, s': System) returns (steps: seq<Step>)
    requires Idle(s) && Installable(cfg, s.keys, d) && CanPublishFirst(cfg, s, d, input, name)
    requires Resolved(d, ask) == Some(cond) && !Matches(cond, NamedView(input.keyId, name))
    requires Run(cfg, Behind(s, PassedBy(d, FirstMessage(cfg, input))), rest, s') && AsksOnly(rest, "c", ask)
    ensures Run(cfg, s, steps, s') && AsksOnly(steps, "c", ask)
  {
    var pass := PassThen(cfg, s, d, FirstMessage(cfg, input), name, ask, cond, rest, s');
    OpenThen(cfg, s, d, input, name, pass, s');
    OpeningAsksNothing(d, input, name, pass, ask);
    steps := OpeningSteps(d, input, name, pass);
  }

  /** The state before the last Consume ends. */
  function Asking(s: System, t: Topic, cond: Condition): System
    requires t.policies != []
  {
    Behind(s, t).(calls := map[0 := Consuming("c", Newest(t).document, cond, 10)])
  }

  function LastAsk(ask: Ask): seq<Step> { [BeginConsume(0, "c", ask.condition, ask.adHoc, 10)] }

  lemma AskingIsReached(cfg: Config, s: System, t: Topic, ask: Ask, cond: Condition)
    requires Idle(s) && t.policies != [] && Resolved(Newest(t).document, ask) == Some(cond)
    ensures Run(cfg, Behind(s, t), LastAsk(ask), Asking(s, t, cond)) && AsksOnly(LastAsk(ask), "c", ask)
  {
    var begin := BeginConsume(0, "c", ask.condition, ask.adHoc, 10);
    assert DoBeginConsume(Behind(s, t), 0, "c", ask.condition, ask.adHoc, 10) == Asking(s, t, cond);
    RunCons(cfg, Behind(s, t), begin, [], Asking(s, t, cond));
  }

  // ---- What is lost -----------------------------------------------------------------------

  /** The Consume in flight can end with a batch below its maximum, and after it a
      message that matches its condition, under a view of its own document, has not
      been delivered to its consumer. */
  ghost predicate ShortAndBehind(s: System, call: nat, views: seq<MessageView>, id: nat) {
    && CanFinishConsume(s, call, views)
    && var c := s.calls[call];
    && var s' := DoFinishConsume(s, call, views);
    && |HandedTo(s', c.consumer)| < |HandedTo(s, c.consumer)| + c.max
    && MatchedUnder(s'.topic, c.document, c.cond, id)
    && id !in DeliveredTo(s'.topic, c.consumer)
  }

  /** The same said with the plain scan: it selects a message that was not delivered. */
  ghost predicate ShortAndScanBehind(s: System, call: nat, views: seq<MessageView>) {
    && CanFinishConsume(s, call, views)
    && var c := s.calls[call];
    && var s' := DoFinishConsume(s, call, views);
    && |HandedTo(s', c.consumer)| < |HandedTo(s, c.consumer)| + c.max
    && !(FullScan(s'.topic, c.document, c.cond) <= DeliveredTo(s'.topic, c.consumer))
  }

  lemma BehindTheScan(s: System, call: nat, views: seq<MessageView>, id: nat)
    requires ShortAndBehind(s, call, views, id) && DistinctKeyIds(s.calls[call].document)
    requires forall i | 0 <= i < |s.topic.messages| :: s.topic.messages[i].id == i + 1
    ensures ShortAndScanBehind(s, call, views)
  {
    var c, t := s.calls[call], DoFinishConsume(s, call, views).topic;
    var m := t.messages[id - 1];
    var v :| IsView(c.document, t.attests, m, v) && Matches(c.cond, v);
    ViewIsUnique(c.document, t.attests, m, v);
    assert m.id in FullScan(t, c.document, c.cond);
  }

  lemma AskingIsBehind(s: System, t: Topic, m: Message, cond: Condition, wanted: string)
    requires OnlyPassed(t, m) && t.policies != [] && Answers(Newest(t).document, m.authorKeyId, wanted)
    requires Matches(cond, NamedView(m.authorKeyId, wanted))
    ensures ShortAndBehind(Asking(s, t, cond), 0, [NamedView(m.authorKeyId, wanted)], 1)
  {
    var view := NamedView(m.authorKeyId, wanted);
    OneView(Newest(t).document, t, m, wanted);
    SecondPass(t, m, cond, view, 10);
    assert IsView(Newest(t).document, t.attests, m, view);
  }

  /** The run: the consumer "c" passes the same arguments throughout, the policies put
      are the given documents, and its last Consume is short and behind. */
  ghost predicate LosesFor(cfg: Config, s: System, steps: seq<Step>, s': System, views: seq<MessageView>, ask: Ask,
      docs: seq<Document>) {
    && Run(cfg, s, steps, s') && AsksOnly(steps, "c", ask) && PoliciesAre(s'.topic, docs)
    && ShortAndBehind(s', 0, views, 1) && s'.calls[0].consumer == "c"
    && s'.topic.policies != [] && s'.calls[0].document == Newest(s'.topic).document
    && |s'.topic.messages| == 1 && s'.topic.messages[0].id == 1
  }

  lemma AskingLoses(cfg: Config, s: System, t: Topic, m: Message, ask: Ask, cond: Condition, wanted: string,
      docs: seq<Document>, steps: seq<Step>)
    requires t.policies != [] && Run(cfg, s, steps, Asking(s, t, cond)) && AsksOnly(steps, "c", ask)
    requires OnlyPassed(t, m) && PoliciesAre(t, docs)
    requires Answers(Newest(t).document, m.authorKeyId, wanted)
    requires Matches(cond, NamedView(m.authorKeyId, wanted))
    ensures LosesFor(cfg, s, steps, Asking(s, t, cond), [NamedView(m.authorKeyId, wanted)], ask, docs)
  {
    AskingIsBehind(s, t, m, cond, wanted);
  }

  lemma PassedTopic(d: Document, m: Message)
    requires m.id == 1
    ensures OnlyPassed(PassedBy(d, m), m) && PoliciesAre(PassedBy(d, m), [d])
  {
  }

  lemma ReplacedTopic(d: Document, m: Message, e: Document)
    requires m.id == 1
    ensures OnlyPassed(Replaced(d, m, e), m) && PoliciesAre(Replaced(d, m, e), [d, e])
  {
  }

  lemma AskAgain(cfg: Config, s: System, d: Document, m: Message, ask: Ask, cond: Condition)
    requires Idle(s) && Resolved(d, ask) == Some(cond)
    ensures Run(cfg, Behind(s, PassedBy(d, m)), LastAsk(ask), Asking(s, PassedBy(d, m), cond))
    ensures AsksOnly(LastAsk(ask), "c", ask) && Newest(PassedBy(d, m)).document == d.(version := 1)
  {
    AskingIsReached(cfg, s, PassedBy(d, m), ask, cond);
  }

  /** Under one policy: its document may answer with two names for the author's key, and
      the condition admits the second only. */
  lemma PassedUnderOnePolicy(cfg: Config, s: System, d: Document, input: PublishInput, name: string, wanted: string,
      ask: Ask, cond: Condition) returns (steps: seq<Step>, s': System, views: seq<MessageView>)
    requires Idle(s) && Installable(cfg, s.keys, d) && CanPublishFirst(cfg, s, d, input, name)
    requires Answers(d, input.keyId, wanted) && Resolved(d, ask) == Some(cond)
    requires !Matches(cond, NamedView(input.keyId, name)) && Matches(cond, NamedView(input.keyId, wanted))
    ensures LosesFor(cfg, s, steps, s', views, ask, [d])
  {
    var m := FirstMessage(cfg, input);
    var t := PassedBy(d, m);
    AskAgain(cfg, s, d, m, ask, cond);
    s', views := Asking(s, t, cond), [NamedView(m.authorKeyId, wanted)];
    steps := OpenAndPass(cfg, s, d, input, name, ask, cond, LastAsk(ask), s');
    PassedTopic(d, m);
    AskingLoses(cfg, s, t, m, ask, cond, wanted, [d], steps);
  }

  lemma ReplaceThenAsk(cfg: Config, s: System, d: Document, e: Document, m: Message, ask: Ask, cond: Condition)
    requires Idle(s) && Installable(cfg, s.keys, e) && Resolved(e, ask) == Some(cond)
    ensures var steps := InstallSteps(0, e, "", 0) + LastAsk(ask);
            && Run(cfg, Behind(s, PassedBy(d, m)), steps, Asking(s, Replaced(d, m, e), cond))
            && AsksOnly(steps, "c", ask)
  {
    var t := Replaced(d, m, e);
    AskingIsReached(cfg, s, t, ask, cond);
    PutPolicyThen(cfg, Behind(s, PassedBy(d, m)), 0, e, "", 0, LastAsk(ask), Asking(s, t, cond));
    AsksOnlyJoined(InstallSteps(0, e, "", 0), LastAsk(ask), "c", ask);
  }

  /** Over a change of policy: the arguments mean one condition before and perhaps
      another after, and the key has one name before and perhaps another after. */
  lemma PassedThenReplaced(cfg: Config, s: System, d: Document, e: Document, input: PublishInput, name: string,
      wanted: string, ask: Ask, before: Condition, after: Condition)
      returns (steps: seq<Step>, s': System, views: seq<MessageView>)
    requires Idle(s) && Installable(cfg, s.keys, d) && Installable(cfg, s.keys, e)
    requires CanPublishFirst(cfg, s, d, input, name) && Answers(e, input.keyId, wanted)
    requires Resolved(d, ask) == Some(before) && Resolved(e, ask) == Some(after)
    requires !Matches(before, NamedView(input.keyId, name)) && Matches(after, NamedView(input.keyId, wanted))
    ensures LosesFor(cfg, s, steps, s', views, ask, [d, e])
  {
    var m := FirstMessage(cfg, input);
    var t := Replaced(d, m, e);
    ReplaceThenAsk(cfg, s, d, e, m, ask, after);
    s', views := Asking(s, t, after), [NamedView(m.authorKeyId, wanted)];
    steps := OpenAndPass(cfg, s, d, input, name, ask, before, InstallSteps(0, e, "", 0) + LastAsk(ask), s');
    ReplacedTopic(d, m, e);
    AskingLoses(cfg, s, t, m, ask, after, wanted, [d, e], steps);
  }

  /** For any two documents that may give a key different names, and any message signed
      with that key: a run in which a consumer that only ever asks for the second name
      ends up with a short batch and the message undelivered. */
  lemma PassedUnderAnotherName(cfg: Config, s: System, d: Document, e: Document, input: PublishInput, name: string,
      wanted: string) returns (steps: seq<Step>, s': System, views: seq<MessageView>)
    requires Idle(s) && Installable(cfg, s.keys, d) && Installable(cfg, s.keys, e)
    requires CanPublishFirst(cfg, s, d, input, name)
    requires Answers(e, input.keyId, wanted) && name != wanted
    ensures LosesFor(cfg, s, steps, s', views, Ask("", Some(ByAuthor(wanted))), [d, e])
  {
    var cond := ByAuthor(wanted);
    AuthorDecides(wanted, NamedView(input.keyId, name));
    AuthorDecides(wanted, NamedView(input.keyId, wanted));
    steps, s', views := PassedThenReplaced(cfg, s, d, e, input, name, wanted, Ask("", Some(cond)), cond, cond);
  }

  // ---- From the empty service ----------------------------------------------------------------

  /** A policy whose agents all hold the key and may publish. */
  function HeldBy(cfg: Config, key: Key, names: seq<string>, conditions: map<string, Condition>): Document {
    Document(PolicySchemaId, cfg.objectId, 1, "t0", false,
             map n | n in names :: AgentRef(key.keyId, key.alg, key.publicKey), names, [], [], 0, conditions)
  }

  predicate GoodKey(key: Key) {
    && key.keyId != "" && key.publicKey != "" && (key.alg == "ed25519" || key.alg == "ecdsa-p256")
    && key.revokedAt == None
  }

  function Registered(key: Key): System { Start.(keys := map[key.keyId := key]) }

  /** The names and conditions of a policy that ValidateDocument accepts. */
  predicate Declared(names: seq<string>, conditions: map<string, Condition>) {
    && names != [] && (forall n | n in names :: n != "")
    && forall c | c in conditions ::
         && (forall a | a in conditions[c].authors :: a in names)
         && (forall r | r in conditions[c].require :: r.agent in names && (r.status == "ok" || r.status == "deny"))
  }

  lemma HeldByInstallable(cfg: Config, key: Key, names: seq<string>, conditions: map<string, Condition>)
    requires cfg.objectId != "" && GoodKey(key) && Declared(names, conditions)
    ensures Installable(cfg, Registered(key).keys, HeldBy(cfg, key, names, conditions))
  {
    assert names[0] in HeldBy(cfg, key, names, conditions).agents;
  }

  /** The key's owner publishes a message of their own signing under version 1. */
  predicate OwnMessage(cfg: Config, key: Key, input: PublishInput) {
    && input.keyId == key.keyId && BelongsToCaller(key, input.subjectKey, input.tokenId)
    && input.policyVersion == 1 && input.policyHash == ""
    && var draft := DraftMessage(cfg.scheme, cfg.objectId, input, "");
    && SignedBy(cfg.scheme, key, draft.signature, EnvelopeOf(draft))
  }

  lemma OwnerPublishes(cfg: Config, key: Key, names: seq<string>, conditions: map<string, Condition>, name: string,
      input: PublishInput)
    requires GoodKey(key) && OwnMessage(cfg, key, input) && name in names
    ensures var d := HeldBy(cfg, key, names, conditions);
            CanPublishFirst(cfg, Registered(key), d, input, name) && Answers(d, input.keyId, name)
  {
    assert name in HeldBy(cfg, key, names, conditions).agents;
  }

  lemma SoleHolder(cfg: Config, key: Key, a: string, conditions: map<string, Condition>)
    ensures DistinctKeyIds(HeldBy(cfg, key, [a], conditions))
  {
  }

  /** Some run of the empty service with these policies loses a message to a consumer
      that only ever asks this. */
  ghost predicate CanLose(cfg: Config, ask: Ask, docs: seq<Document>) {
    exists steps, s', views :: LosesFor(cfg, Start, steps, s', views, ask, docs)
  }

  /** The same, behind the plain scan. */
  ghost predicate CanLoseToScan(cfg: Config, ask: Ask, docs: seq<Document>) {
    exists steps, s', views :: LosesFor(cfg, Start, steps, s', views, ask, docs) && ShortAndScanBehind(s', 0, views)
  }

  /** A run of a service with the key registered is one of the empty service. */
  lemma AfterRegistering(cfg: Config, key: Key, steps: seq<Step>, s': System, views: seq<MessageView>, ask: Ask,
      docs: seq<Document>)
    requires GoodKey(key) && LosesFor(cfg, Registered(key), steps, s', views, ask, docs)
    ensures LosesFor(cfg, Start, [RegisterKey(key)] + steps, s', views, ask, docs)
  {
    assert Apply(cfg, Start, RegisterKey(key)) == Registered(key);
    RunCons(cfg, Start, RegisterKey(key), steps, s');
    AsksOnlyJoined([RegisterKey(key)], steps, "c", ask);
  }

  lemma LosesScan(cfg: Config, s: System, steps: seq<Step>, s': System, views: seq<MessageView>, ask: Ask,
      d: Document, e: Document)
    requires LosesFor(cfg, s, steps, s', views, ask, [d, e]) && DistinctKeyIds(e)
    ensures ShortAndScanBehind(s', 0, views)
  {
    BehindTheScan(s', 0, views, 1);
  }

  lemma RegisteredLoses(cfg: Config, key: Key, steps: seq<Step>, s': System, views: seq<MessageView>, ask: Ask,
      d: Document, e: Document)
    requires GoodKey(key) && LosesFor(cfg, Registered(key), steps, s', views, ask, [d, e]) && DistinctKeyIds(e)
    ensures CanLoseToScan(cfg, ask, [d, e])
  {
    AfterRegistering(cfg, key, steps, s', views, ask, [d, e]);
    LosesScan(cfg, Registered(key), steps, s', views, ask, d, e);
  }

  /** A policy that renames the one key of the topic loses its message, for any two
      names: the consumer asks for the author's second name in every call and ends with
      a short batch behind the plain scan. */
  lemma RenamingCanLose(cfg: Config, key: Key, a: string, b: string, input: PublishInput)
    requires cfg.objectId != "" && GoodKey(key) && OwnMessage(cfg, key, input)
    requires a != b && a != "" && b != ""
    ensures var d, e := HeldBy(cfg, key, [a], map[]), HeldBy(cfg, key, [b], map[]);
            DistinctKeyIds(d) && DistinctKeyIds(e) && CanLoseToScan(cfg, Ask("", Some(ByAuthor(b))), [d, e])
  {
    var d, e := HeldBy(cfg, key, [a], map[]), HeldBy(cfg, key, [b], map[]);
    HeldByInstallable(cfg, key, [a], map[]);
    HeldByInstallable(cfg, key, [b], map[]);
    OwnerPublishes(cfg, key, [a], map[], a, input);
    OwnerPublishes(cfg, key, [b], map[], b, input);
    SoleHolder(cfg, key, a, map[]);
    SoleHolder(cfg, key, b, map[]);
    var steps, s', views := PassedUnderAnotherName(cfg, Registered(key), d, e, input, a, b);
    RegisteredLoses(cfg, key, steps, s', views, Ask("", Some(ByAuthor(b))), d, e);
  }

  /** Under one policy, put once, two agents that share a key lose its message: the views
      of the two passes over it may name the key differently. */
  lemma SharingCanLose(cfg: Config, key: Key, a: string, b: string, input: PublishInput)
    requires cfg.objectId != "" && GoodKey(key) && OwnMessage(cfg, key, input)
    requires a != b && a != "" && b != ""
    ensures var d := HeldBy(cfg, key, [a, b], map[]);
            ValidDocument(d) && !DistinctKeyIds(d) && CanLose(cfg, Ask("", Some(ByAuthor(b))), [d])
  {
    var d, cond := HeldBy(cfg, key, [a, b], map[]), ByAuthor(b);
    HeldByInstallable(cfg, key, [a, b], map[]);
    OwnerPublishes(cfg, key, [a, b], map[], a, input);
    OwnerPublishes(cfg, key, [a, b], map[], b, input);
    assert a in d.agents && b in d.agents;
    AuthorDecides(b, NamedView(input.keyId, a));
    AuthorDecides(b, NamedView(input.keyId, b));
    var steps, s', views := PassedUnderOnePolicy(cfg, Registered(key), d, input, a, b, Ask("", Some(cond)), cond);
    AfterRegistering(cfg, key, steps, s', views, Ask("", Some(cond)), [d]);
  }

  /** A policy that gives a condition's name another meaning loses a message, though
      every key keeps its name: the consumer asks for that name in every call. The two
      meanings are any that a bare message by the agent tells apart. */
  lemma RedefiningCanLose(cfg: Config, key: Key, a: string, input: PublishInput, name: string, before: Condition,
      after: Condition)
    requires cfg.objectId != "" && GoodKey(key) && OwnMessage(cfg, key, input) && name != ""
    requires Declared([a], map[name := before]) && Declared([a], map[name := after])
    requires !Matches(before, NamedView(key.keyId, a)) && Matches(after, NamedView(key.keyId, a))
    ensures var d, e := HeldBy(cfg, key, [a], map[name := before]), HeldBy(cfg, key, [a], map[name := after]);
            d.agents == e.agents && DistinctKeyIds(d) && CanLoseToScan(cfg, Ask(name, None), [d, e])
  {
    var d, e := HeldBy(cfg, key, [a], map[name := before]), HeldBy(cfg, key, [a], map[name := after]);
    HeldByInstallable(cfg, key, [a], map[name := before]);
    HeldByInstallable(cfg, key, [a], map[name := after]);
    OwnerPublishes(cfg, key, [a], d.conditions, a, input);
    OwnerPublishes(cfg, key, [a], e.conditions, a, input);
    SoleHolder(cfg, key, a, d.conditions);
    SoleHolder(cfg, key, a, e.conditions);
    var steps, s', views :=
      PassedThenReplaced(cfg, Registered(key), d, e, input, a, a, Ask(name, None), before, after);
    RegisteredLoses(cfg, key, steps, s', views, Ask(name, None), d, e);
  }
}
