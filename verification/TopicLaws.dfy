/** What every operation keeps true of a topic. */
module TopicLaws {
  import opened Wrappers
  import opened Policy
  import opened Topic

  // ---- Dense ids and an exact event log -------------------------------------------

  predicate Dense(t: Topic) {
    && (forall i | 0 <= i < |t.policies| :: t.policies[i].version == i + 1 == t.policies[i].document.version)
    && (forall i | 0 <= i < |t.messages| :: t.messages[i].id == i + 1)
    && (forall i | 0 <= i < |t.attests| :: t.attests[i].id == i + 1 && 1 <= t.attests[i].messageId <= |t.messages|)
    && (forall i | 0 <= i < |t.events| :: t.events[i].id == i + 1 && 1 <= t.events[i].messageId <= |t.messages|)
  }

  /** The message ids of the publish events, in log order. */
  function Published(events: seq<Event>): seq<int> {
    if events == [] then [] else
      var e := events[|events| - 1];
      Published(events[..|events| - 1]) + (if e.kind.MessagePublished? then [e.messageId] else [])
  }

  /** Attestation id and message id of the attestation events, in log order. */
  function Attested(events: seq<Event>): seq<(nat, int)> {
    if events == [] then [] else
      var e := events[|events| - 1];
      Attested(events[..|events| - 1]) + (if e.kind.AttestationAdded? then
        [(e.kind.attestationId, e.messageId)] else [])
  }

  /** The log holds one event per message and one per attestation, each in order. */
  predicate LogExact(t: Topic) {
    && Published(t.events) == seq(|t.messages|, i requires 0 <= i < |t.messages| => t.messages[i].id as int)
    && Attested(t.events) == seq(|t.attests|, i requires 0 <= i < |t.attests| => (t.attests[i].id,
      t.attests[i].messageId))
  }

  lemma {:induction false} LogSplit(events: seq<Event>)
    ensures |events| == |Published(events)| + |Attested(events)|
  {
    if events != [] { LogSplit(events[..|events| - 1]); }
  }

  lemma LogCounts(t: Topic)
    requires LogExact(t)
    ensures |t.events| == |t.messages| + |t.attests|
  {
    LogSplit(t.events);
  }

  /** An attestation is live exactly if it is its signer's latest on its message. */
  predicate LiveIsLatest(attests: seq<Attestation>) {
    forall i | 0 <= i < |attests| :: attests[i].supersededAt == None <==> IsLatest(attests, i)
  }

  predicate IsLatest(attests: seq<Attestation>, i: nat)
    requires i < |attests|
  {
    forall j | i < j < |attests| :: !SamePair(attests[i], attests[j])
  }

  predicate SamePair(a: Attestation, b: Attestation) {
    a.messageId == b.messageId && a.signerKeyId == b.signerKeyId
  }

  predicate CursorsOk(t: Topic) {
    && (forall c | c in t.cursors :: t.cursors[c] <= |t.events|)
    && (forall c | c in t.delivered :: forall id | id in t.delivered[c] :: 1 <= id <= |t.messages|)
  }

  predicate Consistent(t: Topic) {
    Dense(t) && LogExact(t) && LiveIsLatest(t.attests) && CursorsOk(t)
  }

  lemma {:induction false} FindDense(messages: seq<Message>, base: nat, id: int)
    requires forall i | 0 <= i < |messages| :: messages[i].id == base + i + 1
    ensures FindMessage(messages, id) ==
            if base < id <= base + |messages| then Some(messages[id - base - 1]) else None
  {
    if messages != [] { FindDense(messages[1..], base + 1, id); }
  }

  lemma {:induction false} PolicyDense(policies: seq<SignedPolicy>, base: nat, version: int)
    requires forall i | 0 <= i < |policies| :: policies[i].version == base + i + 1
    ensures PolicyWithVersion(policies, version) ==
            if base < version <= base + |policies| then Some(policies[version - base - 1]) else None
  {
    if policies != [] { PolicyDense(policies[1..], base + 1, version); }
  }

  lemma AppendPolicyKeeps(t: Topic, doc: Document, hash: string, now: int)
    requires Consistent(t)
    ensures Consistent(AppendPolicy(t, doc, hash, now))
    ensures NextVersion(t) == |t.policies| + 1
  {
  }

  lemma AppendMessageKeeps(t: Topic, m: Message)
    requires Consistent(t)
    ensures Consistent(AppendMessage(t, m))
  {
    var t' := AppendMessage(t, m);
    assert t'.events[..|t'.events| - 1] == t.events;
  }

  lemma AppendAttestationKeeps(t: Topic, a: Attestation)
    requires Consistent(t) && 1 <= a.messageId <= |t.messages| && a.supersededAt == None
    ensures Consistent(AppendAttestation(t, a))
  {
    var t' := AppendAttestation(t, a);
    assert t'.events[..|t'.events| - 1] == t.events;
    AttestationStaysLatest(t, a);
  }

  lemma AttestationStaysLatest(t: Topic, a: Attestation)
    requires LiveIsLatest(t.attests) && a.supersededAt == None
    ensures LiveIsLatest(AppendAttestation(t, a).attests)
  {
    var old', new' := t.attests, AppendAttestation(t, a).attests;
    forall i | 0 <= i < |new'| ensures new'[i].supersededAt == None <==> IsLatest(new', i) {
      if i < |old'| {
        assert SamePair(new'[i], new'[|old'|]) <==>
          a.messageId == old'[i].messageId && a.signerKeyId == old'[i].signerKeyId;
        assert forall j | i < j < |old'| :: SamePair(new'[i], new'[j]) <==> SamePair(old'[i], old'[j]);
        if IsLatest(new', i) { assert !SamePair(new'[i], new'[|old'|]); }
      }
    }
  }
}
