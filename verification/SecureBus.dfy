/** The secure bus service, in memory (internal/securebus/service.go, consume.go).

    The methods run one after another here; Protocol.dfy interleaves their
    critical sections, and SecureBusRuns.dfy shows that each method is a run. */
module SecureBus {
  import opened Wrappers
  import opened Crypto
  import Keys = AgentKeys
  import opened Policy
  import opened Filter
  import opened Topic
  import opened Consumers
  import opened Delivery
  import opened Protocol

  // ---- What a call answers, as a function of the state it reads ----------------------

  /** The agent name a policy document may answer for a key; None if it has none. */
  predicate MayAnswer(doc: Document, keyId: string, agent: Option<string>) {
    if agent.Some? then NamesKey(doc, keyId, agent.value, true) else NamesKey(doc, keyId, "", false)
  }

  function LookupPolicy(t: Topic, version: int): Result<SignedPolicy, Error> {
    match PolicyWithVersion(t.policies, version)
    case None => Err(NotFound)
    case Some(p) => Ok(p)
  }

  function CurrentPolicy(t: Topic): Result<SignedPolicy, Error> {
    if t.policies == [] then Err(NotFound) else Ok(t.policies[|t.policies| - 1])
  }

  /** The checks Publish and Attest share: key, current policy, claimed version, agent. */
  function PolicyFor(t: Topic, keys: map<string, Keys.Key>, keyId: string, subjectKey: string, tokenId: string,
                     version: int, hash: string, now: int, grace: int): Result<SignedPolicy, Error>
  {
    if keyId !in keys || !Keys.BelongsToCaller(keys[keyId], subjectKey, tokenId) then Err(KeyNotAllowed)
    else if t.policies == [] then Err(NotFound)
    else if !AcceptPolicyVersion(t.policies[|t.policies| - 1], version, hash, now, grace) then Err(StalePolicy)
    else LookupPolicy(t, version)
  }

  /** Publish, given the answer AgentNameForKey gave. */
  function PublishOutcome(cfg: Config, t: Topic, keys: map<string, Keys.Key>, input: PublishInput, now: int,
      stamp: string,
                          agent: Option<string>): Result<Message, Error>
  {
    match PolicyFor(t, keys, input.keyId, input.subjectKey, input.tokenId, input.policyVersion, input.policyHash,
      now, cfg.grace)
    case Err(e) => Err(e)
    case Ok(p) =>
      if agent == None || !May(p.document, ToPublish, agent.value) then Err(ForbiddenByPolicy)
      else
        var draft := DraftMessage(cfg.scheme, cfg.objectId, input, stamp);
        if input.keyId !in keys || !SignedBy(cfg.scheme, keys[input.keyId], draft.signature, EnvelopeOf(draft)) then
          Err(InvalidSignature)
        else ChainMessage(cfg.scheme, t, p.document.chain, keys[input.keyId], draft)
  }

  /** Attest, given the answer AgentNameForKey gave. */
  function AttestOutcome(cfg: Config, t: Topic, keys: map<string, Keys.Key>, input: AttestInput, now: int,
      stamp: string,
                         agent: Option<string>): Result<Attestation, Error>
  {
    match PolicyFor(t, keys, input.keyId, input.subjectKey, input.tokenId, input.policyVersion, "", now, cfg.grace)
    case Err(e) => Err(e)
    case Ok(p) =>
      if agent == None || !May(p.document, ToAttest, agent.value) then Err(ForbiddenByPolicy)
      else if input.status != "ok" && input.status != "deny" then Err(BadStatus)
      else if Utf8Length(input.comment) > CommentLimit(p.document) then Err(CommentTooLong)
      else
        match FindMessage(t.messages, input.messageId)
        case None => Err(NotFound)
        case Some(m) =>
          var draft := DraftAttestation(cfg.objectId, input, m.hash, stamp);
          if input.keyId !in keys || !SignedBy(cfg.scheme, keys[input.keyId], draft.signature,
            AttestedEnvelope(draft)) then Err(InvalidSignature)
          else Ok(draft)
  }

  function AttestationsOn(attests: seq<Attestation>, messageId: int): seq<Attestation> {
    if attests == [] then [] else
      var a := attests[|attests| - 1];
      AttestationsOn(attests[..|attests| - 1], messageId) + (if a.messageId == messageId then [a] else [])
  }

  datatype AttestationCheck = AttestationCheck(signerKeyId: string, status: string, signatureOk: bool,
    keyRevokedAt: Option<int>, superseded: bool)

  datatype Verification = Verification(
    message: Message,
    attestations: seq<Attestation>,
    signatureOk: bool,
    hashOk: bool,
    checks: seq<AttestationCheck>)

  function CheckAttestation(c: Scheme, keys: map<string, Keys.Key>, a: Attestation): AttestationCheck {
    AttestationCheck(a.signerKeyId, a.status,
      a.signerKeyId in keys && SignedBy(c, keys[a.signerKeyId], a.signature, AttestedEnvelope(a)),
      if a.signerKeyId in keys then keys[a.signerKeyId].revokedAt else None,
      a.supersededAt != None)
  }

  function Verified(c: Scheme, keys: map<string, Keys.Key>, t: Topic, m: Message): Verification {
    var atts := AttestationsOn(t.attests, m.id);
    Verification(m, atts,
      m.authorKeyId in keys && SignedBy(c, keys[m.authorKeyId], m.signature, EnvelopeOf(m)),
      c.hashOf(EnvelopeOf(m)) == m.hash,
      seq(|atts|, i requires 0 <= i < |atts| => CheckAttestation(c, keys, atts[i])))
  }

  // ---- The service ------------------------------------------------------------------

  /** vs starts with the views computed so far. */
  ghost predicate Completes(views: seq<MessageView>, vs: seq<MessageView>, n: nat) {
    |views| <= |vs| == n && vs[..|views|] == views
  }

  ghost predicate ViewsSoFar(doc: Document, t: Topic, views: seq<MessageView>) {
    && |views| <= |t.events|
    && forall i | 0 <= i < |views| ::
         var m := FindMessage(t.messages, t.events[i].messageId);
         m.Some? ==> IsView(doc, t.attests, m.value, views[i])
  }

  /** Some view of the event's message, for events the loop skips. */
  ghost function AnyView(doc: Document, t: Topic, ev: Event): (v: MessageView)
    ensures var m := FindMessage(t.messages, ev.messageId); m.Some? ==> IsView(doc, t.attests, m.value, v)
  {
    match FindMessage(t.messages, ev.messageId)
    case None => MessageView("", "", [])
    case Some(m) =>
      assert IsView(doc, t.attests, m, ViewOf(doc, t.attests, m)) by { SomeView(doc, t.attests, m); }
      ViewOf(doc, t.attests, m)
  }

  lemma SomeView(doc: Document, attests: seq<Attestation>, m: Message)
    ensures IsView(doc, attests, m, ViewOf(doc, attests, m))
  {
    var live := Live(attests, m.id);
    NameAnswers(doc, m.authorKeyId);
    forall i | 0 <= i < |live| ensures Answers(doc, live[i].signerKeyId, NameOf(doc, live[i].signerKeyId)) {
      NameAnswers(doc, live[i].signerKeyId);
    }
  }

  lemma Narrow(views: seq<MessageView>, v: MessageView, n: nat)
    ensures forall vs | Completes(views + [v], vs, n) :: Completes(views, vs, n) && vs[|views|] == v
  {
    forall vs | Completes(views + [v], vs, n) ensures Completes(views, vs, n) && vs[|views|] == v {
      assert vs[..|views|] == vs[..|views + [v]|][..|views|];
      assert vs[|views|] == vs[..|views + [v]|][|views|];
    }
  }

  /** findMsg: the stored message with that id. */
  method FindMsg(messages: seq<Message>, id: int) returns (r: Option<Message>)
    ensures r == FindMessage(messages, id)
  {
    for i := 0 to |messages|
      invariant FindMessage(messages[i..], id) == FindMessage(messages, id)
    {
      if messages[i].id == id {
        return Some(messages[i]);
      }
      assert messages[i..][1..] == messages[i + 1..];
    }
    return None;
  }

  class Service {
    const scheme: Scheme
    const grace: int
    const keys: Keys.Store
    /** Hash of a policy document as the policy signer computes it. */
    const policyHash: Document -> string
    var topics: map<string, Topic>

    constructor (keys: Keys.Store, scheme: Scheme, policyHash: Document -> string, graceSeconds: int)
      ensures topics == map[] && this.keys == keys && this.scheme == scheme && this.policyHash == policyHash
      ensures grace == if graceSeconds <= 0 then 300_000_000_000 else graceSeconds * 1_000_000_000
    {
      this.keys, this.scheme, this.policyHash := keys, scheme, policyHash;
      this.grace := if graceSeconds <= 0 then 300_000_000_000 else graceSeconds * 1_000_000_000;
      topics := map[];
    }

    function TopicOf(objectId: string): Topic
      reads this
    {
      if objectId in topics then topics[objectId] else EmptyTopic
    }

    function ConfigFor(objectId: string): Config { Config(objectId, scheme, grace) }

    /** The document PutPolicy validates and signs. */
    function Prepared(objectId: string, doc: Document, stamp: string): Document {
      doc.(topicId := objectId, schema := PolicySchemaId, issuedAt := if doc.issuedAt == "" then
        stamp else doc.issuedAt)
    }

    predicate AgentKeysUsable(doc: Document)
      reads keys
    {
      forall n | n in doc.agents :: doc.agents[n].keyId in keys.keys && keys.keys[doc.agents[n].keyId].revokedAt == None
    }

    method CheckAgentKeys(doc: Document) returns (ok: bool)
      ensures ok == AgentKeysUsable(doc)
    {
      var todo := doc.agents.Keys;
      while todo != {}
        invariant todo <= doc.agents.Keys
        invariant forall n | n in doc.agents && n !in todo ::
          doc.agents[n].keyId in keys.keys && keys.keys[doc.agents[n].keyId].revokedAt == None
        decreases todo
      {
        var n :| n in todo;
        var key := keys.Get(doc.agents[n].keyId);
        if key == None || key.value.revokedAt != None {
          return false;
        }
        todo := todo - {n};
      }
      return true;
    }

    method PutPolicy(objectId: string, doc: Document, stamp: string, now: int) returns (r: Result<SignedPolicy, Error>)
      modifies this
      ensures var prepared := Prepared(objectId, doc, stamp);
              var hash := policyHash(prepared.(version := NextVersion(old(TopicOf(objectId)))));
              var t' := AppendPolicy(old(TopicOf(objectId)), prepared, hash, now);
              && (r.Ok? <==> ValidDocument(prepared) && AgentKeysUsable(prepared))
              && (r.Ok? ==> topics == old(topics)[objectId := t'] && r.value == t'.policies[|t'.policies| - 1])
              && (r.Err? ==> topics == old(topics))
    {
      var prepared := Prepared(objectId, doc, stamp);
      if !ValidDocument(prepared) {
        return Err(InvalidDocument);
      }
      var usable := CheckAgentKeys(prepared);
      if !usable {
        return Err(AgentKeyUnusable);
      }
      var t := TopicOf(objectId);
      var next := 1;
      if |t.policies| > 0 {
        next := t.policies[|t.policies| - 1].version + 1;
      }
      var signed := prepared.(version := next);
      var sp := SignedPolicy(signed, policyHash(signed), next, now);
      topics := topics[objectId := t.(policies := t.policies + [sp])];
      return Ok(sp);
    }

    method LoadPolicyVersion(objectId: string, version: int) returns (r: Result<SignedPolicy, Error>)
      ensures r == LookupPolicy(TopicOf(objectId), version)
    {
      var policies := TopicOf(objectId).policies;
      for i := 0 to |policies|
        invariant PolicyWithVersion(policies[i..], version) == PolicyWithVersion(policies, version)
      {
        if policies[i].version == version {
          return Ok(policies[i]);
        }
        assert policies[i..][1..] == policies[i + 1..];
      }
      return Err(NotFound);
    }

    /** Version 0 or less asks for the newest. */
    method GetPolicy(objectId: string, version: int) returns (r: Result<SignedPolicy, Error>)
      ensures var t := TopicOf(objectId);
              r == if t.policies == [] || version <= 0 then CurrentPolicy(t) else LookupPolicy(t, version)
    {
      var policies := TopicOf(objectId).policies;
      if |policies| == 0 {
        return Err(NotFound);
      }
      if version <= 0 {
        return Ok(policies[|policies| - 1]);
      }
      r := LoadPolicyVersion(objectId, version);
    }

    method GetMessage(objectId: string, id: int) returns (r: Result<Message, Error>)
      ensures r == match FindMessage(TopicOf(objectId).messages, id) case None => Err(NotFound) case Some(m) => Ok(m)
    {
      var found := FindMsg(TopicOf(objectId).messages, id);
      if found == None {
        return Err(NotFound);
      }
      return Ok(found.value);
    }

    /** The checks shared by Publish and Attest, up to the claimed policy. */
    method AuthorisingPolicy(objectId: string, keyId: string, subjectKey: string, tokenId: string, version: int,
        hash: string, now: int)
      returns (r: Result<SignedPolicy, Error>)
      ensures r == PolicyFor(TopicOf(objectId), keys.keys, keyId, subjectKey, tokenId, version, hash, now, grace)
    {
      var key := keys.Get(keyId);
      if key == None || !Keys.BelongsToCaller(key.value, subjectKey, tokenId) {
        return Err(KeyNotAllowed);
      }
      var current := GetPolicy(objectId, 0);
      if current.Err? {
        return Err(current.error);
      }
      if !AcceptPolicyVersion(current.value, version, hash, now, grace) {
        return Err(StalePolicy);
      }
      r := LoadPolicyVersion(objectId, version);
    }

    method Publish(objectId: string, input: PublishInput, now: int, stamp: string)
      returns (r: Result<Message, Error>, ghost agent: Option<string>)
      modifies this
      ensures var t := old(TopicOf(objectId));
              var p := PolicyFor(t, keys.keys, input.keyId, input.subjectKey, input.tokenId, input.policyVersion,
                input.policyHash, now, grace);
              var outcome := PublishOutcome(ConfigFor(objectId), t, keys.keys, input, now, stamp, agent);
              && (p.Ok? ==> MayAnswer(p.value.document, input.keyId, agent))
              && (outcome.Err? ==> r == Err(outcome.error) && topics == old(topics))
              && (outcome.Ok? ==>
                    && r == Ok(outcome.value.(id := |t.messages| + 1))
                    && topics == old(topics)[objectId := AppendMessage(t, outcome.value)])
    {
      agent := None;
      var policy := AuthorisingPolicy(objectId, input.keyId, input.subjectKey, input.tokenId, input.policyVersion,
        input.policyHash, now);
      if policy.Err? {
        return Err(policy.error), agent;
      }
      var doc := policy.value.document;
      var name, found := AgentNameForKey(doc, input.keyId);
      agent := if found then Some(name) else None;
      if !found || !May(doc, ToPublish, name) {
        return Err(ForbiddenByPolicy), agent;
      }
      var key := keys.Get(input.keyId);
      var draft := DraftMessage(scheme, objectId, input, stamp);
      if !SignedBy(scheme, key.value, draft.signature, EnvelopeOf(draft)) {
        return Err(InvalidSignature), agent;
      }
      var t := TopicOf(objectId);
      var chained := ChainMessage(scheme, t, doc.chain, key.value, draft);
      if chained.Err? {
        return Err(chained.error), agent;
      }
      var m := chained.value.(id := |t.messages| + 1);
      var ev := Event(|t.events| + 1, MessagePublished, m.id);
      topics := topics[objectId := t.(messages := t.messages + [m], events := t.events + [ev])];
      return Ok(m), agent;
    }

    /** Marks the signer's live attestations on the message, one by one. */
    method SupersedeAll(attests: seq<Attestation>, messageId: int, keyId: string,
        now: string) returns (r: seq<Attestation>)
      ensures r == Supersede(attests, messageId, keyId, now)
    {
      r := attests;
      for i := 0 to |attests|
        invariant |r| == |attests|
        invariant forall j | 0 <= j < i :: r[j] == Supersede(attests, messageId, keyId, now)[j]
        invariant forall j | i <= j < |attests| :: r[j] == attests[j]
      {
        if r[i].messageId == messageId && r[i].signerKeyId == keyId && r[i].supersededAt == None {
          r := r[i := r[i].(supersededAt := Some(now))];
        }
      }
    }

    method Attest(objectId: string, input: AttestInput, now: int, stamp: string)
      returns (r: Result<Attestation, Error>, ghost agent: Option<string>)
      modifies this
      ensures var t := old(TopicOf(objectId));
              var p := PolicyFor(t, keys.keys, input.keyId, input.subjectKey, input.tokenId, input.policyVersion, "",
                now, grace);
              var outcome := AttestOutcome(ConfigFor(objectId), t, keys.keys, input, now, stamp, agent);
              && (p.Ok? ==> MayAnswer(p.value.document, input.keyId, agent))
              && (outcome.Err? ==> r == Err(outcome.error) && topics == old(topics))
              && (outcome.Ok? ==>
                    && r == Ok(outcome.value.(id := |t.attests| + 1))
                    && topics == old(topics)[objectId := AppendAttestation(t, outcome.value)])
    {
      agent := None;
      var policy := AuthorisingPolicy(objectId, input.keyId, input.subjectKey, input.tokenId, input.policyVersion,
        "", now);
      if policy.Err? {
        return Err(policy.error), agent;
      }
      var doc := policy.value.document;
      var name, found := AgentNameForKey(doc, input.keyId);
      agent := if found then Some(name) else None;
      if !found || !May(doc, ToAttest, name) {
        return Err(ForbiddenByPolicy), agent;
      }
      if input.status != "ok" && input.status != "deny" {
        return Err(BadStatus), agent;
      }
      if Utf8Length(input.comment) > CommentLimit(doc) {
        return Err(CommentTooLong), agent;
      }
      var msg := GetMessage(objectId, input.messageId);
      if msg.Err? {
        return Err(msg.error), agent;
      }
      var key := keys.Get(input.keyId);
      var draft := DraftAttestation(objectId, input, msg.value.hash, stamp);
      if !SignedBy(scheme, key.value, draft.signature, AttestedEnvelope(draft)) {
        return Err(InvalidSignature), agent;
      }
      var t := TopicOf(objectId);
      var attests := SupersedeAll(t.attests, input.messageId, input.keyId, draft.createdAt);
      var att := draft.(id := |t.attests| + 1);
      var ev := Event(|t.events| + 1, AttestationAdded(att.id), input.messageId);
      topics := topics[objectId := t.(attests := attests + [att], events := t.events + [ev])];
      return Ok(att), agent;
    }

    method MessageViewLocked(objectId: string, doc: Document, m: Message) returns (view: MessageView)
      ensures IsView(doc, TopicOf(objectId).attests, m, view)
    {
      var author, found := AgentNameForKey(doc, m.authorKeyId);
      var attests := TopicOf(objectId).attests;
      var views: seq<AttestationView> := [];
      for i := 0 to |attests|
        invariant var live := Live(attests[..i], m.id);
          && |views| == |live|
          && forall k | 0 <= k < |live| ::
               && views[k].keyId == live[k].signerKeyId
               && views[k].status == live[k].status
               && Answers(doc, live[k].signerKeyId, views[k].agentName)
      {
        assert attests[..i + 1][..i] == attests[..i];
        var a := attests[i];
        if a.messageId != m.id || a.supersededAt != None {
          continue;
        }
        var name, ok := AgentNameForKey(doc, a.signerKeyId);
        views := views + [AttestationView(name, a.signerKeyId, a.status)];
      }
      assert attests[..|attests|] == attests;
      view := MessageView(m.authorKeyId, author, views);
    }

    method ListAttestations(objectId: string, messageId: int) returns (out: seq<Attestation>)
      ensures out == AttestationsOn(TopicOf(objectId).attests, messageId)
    {
      var attests := TopicOf(objectId).attests;
      out := [];
      for i := 0 to |attests|
        invariant out == AttestationsOn(attests[..i], messageId)
      {
        assert attests[..i + 1][..i] == attests[..i];
        if attests[i].messageId == messageId {
          out := out + [attests[i]];
        }
      }
      assert attests[..|attests|] == attests;
    }

    method Verify(objectId: string, messageId: int) returns (r: Result<Verification, Error>)
      ensures r == match FindMessage(TopicOf(objectId).messages, messageId)
                   case None => Err(NotFound)
                   case Some(m) => Ok(Verified(scheme, keys.keys, TopicOf(objectId), m))
    {
      var msg := GetMessage(objectId, messageId);
      if msg.Err? {
        return Err(msg.error);
      }
      var m := msg.value;
      FoundId(TopicOf(objectId).messages, messageId);
      var atts := ListAttestations(objectId, messageId);
      var key := keys.Get(m.authorKeyId);
      var hashOk := scheme.hashOf(EnvelopeOf(m)) == m.hash;
      var sigOk := key.Some? && SignedBy(scheme, key.value, m.signature, EnvelopeOf(m));
      var checks: seq<AttestationCheck> := [];
      for i := 0 to |atts|
        invariant |checks| == i
        invariant forall j | 0 <= j < i :: checks[j] == CheckAttestation(scheme, keys.keys, atts[j])
      {
        var k := keys.Get(atts[i].signerKeyId);
        var ok := k.Some? && SignedBy(scheme, k.value, atts[i].signature, AttestedEnvelope(atts[i]));
        checks := checks + [AttestationCheck(atts[i].signerKeyId, atts[i].status, ok,
                                             if k.Some? then k.value.revokedAt else None,
                                               atts[i].supersededAt != None)];
      }
      assert checks == Verified(scheme, keys.keys, TopicOf(objectId), m).checks;
      return Ok(Verification(m, atts, sigOk, hashOk, checks));
    }

    /** The event log is read from the consumer's cursor on; views holds, per event,
        the view the match was decided on. */
    method Consume(objectId: string, consumer: string, condition: string, adHoc: Option<Condition>, max: int)
      returns (r: Result<seq<Message>, Error>, ghost views: seq<MessageView>)
      modifies this
      ensures var t := old(TopicOf(objectId));
              var name := ConsumerName(consumer);
              && (t.policies == [] ==> r == Err(NotFound) && topics == old(topics))
              && (t.policies != [] ==>
                    var doc := Newest(t).document;
                    match ResolveCondition(doc, condition, adHoc)
                    case None => r == Err(UnknownCondition) && topics == old(topics)
                    case Some(cond) =>
                      && AreViews(doc, t, views)
                      && var p := Consumed(t, name, cond, views, BatchSize(max));
                      && r == Ok(p.out) && topics == old(topics)[objectId := AfterConsume(t, name, p)])
    {
      views := [];
      var name := ConsumerName(consumer);
      var batch := BatchSize(max);
      var policy := GetPolicy(objectId, 0);
      if policy.Err? {
        return Err(policy.error), views;
      }
      var doc := policy.value.document;
      var resolved := ResolveCondition(doc, condition, adHoc);
      if resolved == None {
        return Err(UnknownCondition), views;
      }
      var t, cond := TopicOf(objectId), resolved.value;
      var done := DeliveredTo(t, name);
      var last := CursorOf(t, name);
      var out: seq<Message> := [];
      var i := 0;
      var full := false;
      ghost var start := Progress(last, done, []);
      while i < |t.events| && !full
        invariant 0 <= i <= |t.events| && |views| == i
        invariant topics == old(topics)
        invariant ViewsSoFar(doc, t, views)
        invariant full ==> forall vs | Completes(views, vs, |t.events|) ::
          Scan(t, cond, vs, batch, 0, start) == Progress(last, done, out)
        invariant !full ==> forall vs | Completes(views, vs, |t.events|) ::
          Scan(t, cond, vs, batch, 0, start) == Scan(t, cond, vs, batch, i, Progress(last, done, out))
        decreases |t.events| - i
      {
        var ev := t.events[i];
        ghost var before := views;
        var view: MessageView := MessageView("", "", []);
        var found := FindMsg(t.messages, ev.messageId);
        if ev.id > last {
          last := ev.id;
          if ev.messageId !in done && found.Some? {
            view := MessageViewLocked(objectId, doc, found.value);
            var matches := MatchCondition(cond, view);
            if matches {
              out := out + [found.value];
              done := done + {found.value.id};
              full := |out| >= batch;
            }
            views := views + [view];
          } else {
            views := views + [AnyView(doc, t, ev)];
          }
        } else {
          views := views + [AnyView(doc, t, ev)];
        }
        Narrow(before, views[i], |t.events|);
        i := i + 1;
      }
      while |views| < |t.events|
        invariant i <= |views| <= |t.events| && ViewsSoFar(doc, t, views)
        invariant topics == old(topics)
        invariant forall vs | Completes(views, vs, |t.events|) ::
          Scan(t, cond, vs, batch, 0, start) == Progress(last, done, out)
      {
        ghost var v := AnyView(doc, t, t.events[|views|]);
        Narrow(views, v, |t.events|);
        views := views + [v];
      }
      assert Completes(views, views, |t.events|);
      topics := topics[objectId := t.(cursors := t.cursors[name := last], delivered := t.delivered[name := done])];
      return Ok(out), views;
    }
  }

  lemma {:induction false} FoundId(messages: seq<Message>, id: int)
    ensures FindMessage(messages, id).Some? ==> FindMessage(messages, id).value.id == id
  {
    if messages != [] { FoundId(messages[1..], id); }
  }
}
