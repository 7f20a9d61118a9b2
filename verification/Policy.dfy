/** Topic policies of the secure bus (internal/securebus/policy.go). */
module Policy {
  import opened Wrappers

  const PolicySchemaId := "synamcps.securebus.policy/v1"

  datatype AgentRef = AgentRef(keyId: string, alg: string, publicKey: string)

  datatype Requirement = Requirement(agent: string, status: string)

  datatype Condition = Condition(
    authors: seq<string>,
    require: seq<Requirement>,
    minOk: int,
    anyDeny: Option<bool>,
    mode: string)

  datatype Document = Document(
    schema: string,
    topicId: string,
    version: int,
    issuedAt: string,
    chain: bool,
    agents: map<string, AgentRef>,
    publish: seq<string>,
    attest: seq<string>,
    subscribe: seq<string>,
    commentMaxBytes: int,
    conditions: map<string, Condition>)

  datatype Rule = ToPublish | ToAttest | ToSubscribe

  function RuleNames(doc: Document, rule: Rule): seq<string> {
    match rule
    case ToPublish => doc.publish
    case ToAttest => doc.attest
    case ToSubscribe => doc.subscribe
  }

  predicate May(doc: Document, rule: Rule, agent: string) {
    agent in RuleNames(doc, rule)
  }

  predicate ValidAgent(name: string, a: AgentRef) {
    && name != "" && a.keyId != "" && a.publicKey != ""
    && (a.alg == "ed25519" || a.alg == "ecdsa-p256")
  }

  predicate ValidCondition(doc: Document, c: Condition) {
    && (forall a | a in c.authors :: a in doc.agents)
    && (forall r | r in c.require :: r.agent in doc.agents && (r.status == "ok" || r.status == "deny"))
  }

  predicate ValidDocument(doc: Document) {
    && doc.schema == PolicySchemaId
    && doc.topicId != ""
    && doc.version >= 1
    && doc.issuedAt != ""
    && doc.agents.Keys != {}
    && (forall name | name in doc.agents :: ValidAgent(name, doc.agents[name]))
    && (forall n | n in doc.publish :: n in doc.agents)
    && (forall n | n in doc.attest :: n in doc.agents)
    && (forall n | n in doc.subscribe :: n in doc.agents)
    && (forall c | c in doc.conditions :: ValidCondition(doc, doc.conditions[c]))
  }

  /** What AgentNameForKey may answer. Go ranges over the agents in no fixed
      order, so a key that two agents share has several answers. */
  predicate NamesKey(doc: Document, keyId: string, name: string, found: bool) {
    if found then name in doc.agents && doc.agents[name].keyId == keyId
    else name == "" && forall n | n in doc.agents :: doc.agents[n].keyId != keyId
  }

  method AgentNameForKey(doc: Document, keyId: string) returns (name: string, found: bool)
    ensures NamesKey(doc, keyId, name, found)
  {
    var todo := doc.agents.Keys;
    while todo != {}
      invariant todo <= doc.agents.Keys
      invariant forall n | n in doc.agents && n !in todo :: doc.agents[n].keyId != keyId
      decreases todo
    {
      var n :| n in todo;
      if doc.agents[n].keyId == keyId {
        return n, true;
      }
      todo := todo - {n};
    }
    return "", false;
  }

  /** No two agents share a key. */
  predicate DistinctKeyIds(doc: Document) {
    forall m, n | m in doc.agents && n in doc.agents && doc.agents[m].keyId == doc.agents[n].keyId :: m == n
  }

  /** The agent name of a key, "" for a key no agent holds. */
  ghost function NameOf(doc: Document, keyId: string): string {
    if n :| n in doc.agents && doc.agents[n].keyId == keyId then n else ""
  }

  /** With distinct keys AgentNameForKey has one answer. */
  lemma NameIsUnique(doc: Document, keyId: string, name: string, found: bool)
    requires DistinctKeyIds(doc) && NamesKey(doc, keyId, name, found)
    ensures name == NameOf(doc, keyId)
  {
  }
}
