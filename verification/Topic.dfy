/** One topic of the secure bus as a value: policies, messages, attestations,
    events, and per consumer a cursor and the delivered message ids
    (internal/securebus/service.go and consume.go, in-memory branches).

    Each function below is what one critical section of the service does to the
    topic; the service class runs them and the protocol interleaves them. */
module Topic {
  import opened Wrappers
  import opened Canonical
  import opened Crypto
  import opened AgentKeys
  import opened Policy
  import opened Filter

  datatype SignedPolicy = SignedPolicy(document: Document, hash: string, version: int, createdAt: int)

  datatype Message = Message(
    id: nat,
    objectId: string,
    authorKeyId: string,
    policyVersion: int,
    policyHash: string,
    nonce: string,
    payload: map<string, Value>,
    hash: string,
    prevHash: string,
    signature: string,
    createdAt: string)

  datatype Attestation = Attestation(
    id: nat,
    objectId: string,
    messageId: int,
    signerKeyId: string,
    policyVersion: int,
    status: string,
    comment: string,
    messageHash: string,
    signature: string,
    createdAt: string,
    supersededAt: Option<string>)

  datatype EventKind = MessagePublished | AttestationAdded(attestationId: nat)

  datatype Event = Event(id: nat, kind: EventKind, messageId: int)

  datatype Topic = Topic(
    policies: seq<SignedPolicy>,
    messages: seq<Message>,
    attests: seq<Attestation>,
    events: seq<Event>,
    cursors: map<string, nat>,
    delivered: map<string, set<nat>>)

  const EmptyTopic := Topic([], [], [], [], map[], map[])

  datatype PublishInput = PublishInput(
    keyId: string,
    subjectKey: string,
    tokenId: string,
    policyVersion: int,
    policyHash: string,
    nonce: string,
    createdAt: Option<string>,
    payload: Option<map<string, Value>>,
    signature: string,
    prevHash: string)

  datatype AttestInput = AttestInput(
    keyId: string,
    subjectKey: string,
    tokenId: string,
    messageId: int,
    policyVersion: int,
    status: string,
    comment: string,
    createdAt: Option<string>,
    signature: string)

  datatype Error =
    | InvalidDocument
    | AgentKeyUnusable
    | KeyNotAllowed
    | NotFound
    | StalePolicy
    | ForbiddenByPolicy
    | InvalidSignature
    | PrevHashRequired
    | PrevHashMismatch
    | BadStatus
    | CommentTooLong
    | UnknownCondition

  // ---- Envelopes ----------------------------------------------------------------

  function EnvelopeWith(m: Message, prevHash: Option<string>): Envelope {
    MessageEnvelope(m.objectId, m.policyVersion, m.policyHash, m.authorKeyId, m.nonce, m.createdAt, m.payload, prevHash)
  }

  /** The envelope of a stored message, as Verify rebuilds it: prevHash only if not empty. */
  function EnvelopeOf(m: Message): Envelope {
    EnvelopeWith(m, if m.prevHash != "" then Some(m.prevHash) else None)
  }

  function AttestedEnvelope(a: Attestation): Envelope {
    AttestationEnvelope(a.messageId, a.messageHash, a.policyVersion, a.signerKeyId, a.status, a.comment, a.createdAt)
  }

  predicate SignedBy(c: Scheme, key: Key, signature: string, envelope: Envelope) {
    c.verify(key.alg, key.publicKey, signature, c.hashOf(envelope))
  }

  // ---- Policies -------------------------------------------------------------------

  function PolicyWithVersion(policies: seq<SignedPolicy>, version: int): Option<SignedPolicy> {
    if policies == [] then None
    else if policies[0].version == version then Some(policies[0])
    else PolicyWithVersion(policies[1..], version)
  }

  function NextVersion(t: Topic): int {
    if t.policies == [] then 1 else t.policies[|t.policies| - 1].version + 1
  }

  function AppendPolicy(t: Topic, doc: Document, hash: string, now: int): Topic {
    var v := NextVersion(t);
    t.(policies := t.policies + [SignedPolicy(doc.(version := v), hash, v, now)])
  }

  predicate AcceptPolicyVersion(current: SignedPolicy, version: int, hash: string, now: int, grace: int) {
    || (version == current.version && (hash == "" || hash == current.hash))
    || (version == current.version - 1 && now - current.createdAt <= grace)
  }

  // ---- Publishing -----------------------------------------------------------------

  function FindMessage(messages: seq<Message>, id: int): Option<Message> {
    if messages == [] then None
    else if messages[0].id == id then Some(messages[0])
    else FindMessage(messages[1..], id)
  }

  /** The message before its id is assigned and the chain is checked. */
  function DraftMessage(c: Scheme, objectId: string, input: PublishInput, now: string): Message {
    var created := if input.createdAt.Some? then input.createdAt.value else now;
    var payload := if input.payload.Some? then input.payload.value else map[];
    var m := Message(0, objectId, input.keyId, input.policyVersion, input.policyHash, input.nonce, payload,
                     "", input.prevHash, input.signature, created);
    m.(hash := c.hashOf(EnvelopeOf(m)))
  }

  /** With chain enabled a message must name its predecessor's hash; if it names
      none, that hash is filled in and the signature must cover it. */
  function ChainMessage(c: Scheme, t: Topic, chain: bool, key: Key, m: Message): Result<Message, Error> {
    if !chain || t.messages == [] then Ok(m) else
      var prev := t.messages[|t.messages| - 1].hash;
      if m.prevHash == "" then
        var envelope := EnvelopeWith(m, Some(prev));
        if SignedBy(c, key, m.signature, envelope) then Ok(m.(prevHash := prev, hash := c.hashOf(envelope)))
        else Err(PrevHashRequired)
      else if m.prevHash != prev then Err(PrevHashMismatch)
      else Ok(m)
  }

  function AppendMessage(t: Topic, m: Message): Topic {
    var id := |t.messages| + 1;
    t.(messages := t.messages + [m.(id := id)],
       events := t.events + [Event(|t.events| + 1, MessagePublished, id)])
  }

  // ---- Attesting ------------------------------------------------------------------

  function DraftAttestation(objectId: string, input: AttestInput, messageHash: string, now: string): Attestation {
    var created := if input.createdAt.Some? then input.createdAt.value else now;
    Attestation(0, objectId, input.messageId, input.keyId, input.policyVersion, input.status, input.comment,
                messageHash, input.signature, created, None)
  }

  predicate LiveFor(a: Attestation, messageId: int, keyId: string) {
    a.messageId == messageId && a.signerKeyId == keyId && a.supersededAt == None
  }

  /** Marks every live attestation of this key on this message as superseded. */
  function Supersede(attests: seq<Attestation>, messageId: int, keyId: string, now: string): (r: seq<Attestation>)
    ensures |r| == |attests|
  {
    seq(|attests|, i requires 0 <= i < |attests| =>
      if LiveFor(attests[i], messageId, keyId) then attests[i].(supersededAt := Some(now)) else attests[i])
  }

  function AppendAttestation(t: Topic, a: Attestation): Topic {
    var id := |t.attests| + 1;
    t.(attests := Supersede(t.attests, a.messageId, a.signerKeyId, a.createdAt) + [a.(id := id)],
       events := t.events + [Event(|t.events| + 1, AttestationAdded(id), a.messageId)])
  }

  // ---- Consuming ------------------------------------------------------------------

  /** The live attestations of a message, oldest first. */
  function Live(attests: seq<Attestation>, messageId: int): seq<Attestation> {
    if attests == [] then [] else
      var a := attests[|attests| - 1];
      var rest := Live(attests[..|attests| - 1], messageId);
      if a.messageId == messageId && a.supersededAt == None then rest + [a] else rest
  }

  predicate Answers(doc: Document, keyId: string, name: string) {
    NamesKey(doc, keyId, name, true) || NamesKey(doc, keyId, name, false)
  }

  /** A view messageViewLocked may build: any answer of AgentNameForKey for each key. */
  predicate IsView(doc: Document, attests: seq<Attestation>, m: Message, view: MessageView) {
    var live := Live(attests, m.id);
    && view.authorKeyId == m.authorKeyId
    && Answers(doc, m.authorKeyId, view.authorName)
    && |view.attestations| == |live|
    && forall i | 0 <= i < |live| ::
         && view.attestations[i].keyId == live[i].signerKeyId
         && view.attestations[i].status == live[i].status
         && Answers(doc, live[i].signerKeyId, view.attestations[i].agentName)
  }

  /** One view for every event whose message exists. */
  predicate AreViews(doc: Document, t: Topic, views: seq<MessageView>) {
    && |views| == |t.events|
    && forall i | 0 <= i < |views| ::
         var m := FindMessage(t.messages, t.events[i].messageId);
         m.Some? ==> IsView(doc, t.attests, m.value, views[i])
  }

  datatype Progress = Progress(last: nat, done: set<nat>, out: seq<Message>)

  /** The Consume loop from event index i on. */
  function Scan(t: Topic, cond: Condition, views: seq<MessageView>, max: nat, i: nat, p: Progress): Progress
    requires i <= |t.events| == |views|
    decreases |t.events| - i
  {
    if i == |t.events| then p else
      var ev := t.events[i];
      if ev.id <= p.last then
        Scan(t, cond, views, max, i + 1, p)
      else
        var m := FindMessage(t.messages, ev.messageId);
        if ev.messageId in p.done || m.None? || !Matches(cond, views[i]) then
          Scan(t, cond, views, max, i + 1, p.(last := ev.id))
        else
          var q := Progress(ev.id, p.done + {m.value.id}, p.out + [m.value]);
          if |q.out| >= max then q else Scan(t, cond, views, max, i + 1, q)
  }

  function CursorOf(t: Topic, consumer: string): nat {
    if consumer in t.cursors then t.cursors[consumer] else 0
  }

  function DeliveredTo(t: Topic, consumer: string): set<nat> {
    if consumer in t.delivered then t.delivered[consumer] else {}
  }

  /** The whole loop, from the start of the event log. */
  function Consumed(t: Topic, consumer: string, cond: Condition, views: seq<MessageView>, max: nat): Progress
    requires |views| == |t.events|
  {
    Scan(t, cond, views, max, 0, Progress(CursorOf(t, consumer), DeliveredTo(t, consumer), []))
  }

  function AfterConsume(t: Topic, consumer: string, p: Progress): Topic {
    t.(cursors := t.cursors[consumer := p.last], delivered := t.delivered[consumer := p.done])
  }
}
