/** What a condition means: it is decided by the latest status each agent gave,
    whatever was superseded and in whatever order the attestations came. */
module MatchLaws {
  import opened Wrappers
  import opened Policy
  import opened Filter
  import opened Topic
  import opened TopicLaws
  import opened Delivery

  /** The status a key gave a message last, looking at all attestations. */
  function StatusBy(attests: seq<Attestation>, messageId: int, keyId: string): Option<string> {
    if attests == [] then None else
      var a := attests[|attests| - 1];
      if a.messageId == messageId && a.signerKeyId == keyId then Some(a.status)
      else StatusBy(attests[..|attests| - 1], messageId, keyId)
  }

  predicate By(a: Attestation, messageId: int, keyId: string) {
    a.messageId == messageId && a.signerKeyId == keyId
  }

  lemma {:induction false} StatusByLatest(attests: seq<Attestation>, messageId: int, keyId: string)
    ensures StatusBy(attests, messageId, keyId) == None ==>
              forall i | 0 <= i < |attests| :: !By(attests[i], messageId, keyId)
    ensures forall i | 0 <= i < |attests| && By(attests[i], messageId, keyId) && IsLatest(attests, i) ::
              StatusBy(attests, messageId, keyId) == Some(attests[i].status)
    ensures StatusBy(attests, messageId, keyId) != None ==>
              exists i :: 0 <= i < |attests| && By(attests[i], messageId, keyId) && IsLatest(attests, i)
  {
    if attests != [] {
      var n := |attests| - 1;
      var init := attests[..n];
      StatusByLatest(init, messageId, keyId);
      if By(attests[n], messageId, keyId) {
        assert IsLatest(attests, n);
        forall i | 0 <= i < n && By(attests[i], messageId, keyId) ensures !IsLatest(attests, i) {
          assert SamePair(attests[i], attests[n]);
        }
      } else {
        forall i | 0 <= i < n && By(attests[i], messageId, keyId) ensures IsLatest(attests, i) <==> IsLatest(init, i) {
          assert forall j | i < j < n :: init[j] == attests[j];
          assert !SamePair(attests[i], attests[n]);
          if IsLatest(attests, i) { assert forall j | i < j < n :: !SamePair(init[i], init[j]); }
        }
        if StatusBy(init, messageId, keyId) != None {
          var i :| 0 <= i < |init| && By(init[i], messageId, keyId) && IsLatest(init, i);
          assert By(attests[i], messageId, keyId) && IsLatest(attests, i);
        }
      }
    }
  }

  lemma {:induction false} LiveMembers(attests: seq<Attestation>, messageId: int, a: Attestation)
    ensures a in Live(attests, messageId) <==>
            a in attests && a.messageId == messageId && a.supersededAt == None
  {
    if attests != [] {
      var init := attests[..|attests| - 1];
      LiveMembers(init, messageId, a);
      assert a in attests <==> a in init || a == attests[|attests| - 1];
    }
  }

  predicate NoTwoLive(attests: seq<Attestation>) {
    forall i, j | 0 <= i < j < |attests| && attests[i].supersededAt == None == attests[j].supersededAt ::
      !SamePair(attests[i], attests[j])
  }

  predicate DistinctSigners(live: seq<Attestation>) {
    forall i, j | 0 <= i < j < |live| :: live[i].signerKeyId != live[j].signerKeyId
  }

  lemma {:induction false} LiveDistinct(attests: seq<Attestation>, messageId: int)
    requires NoTwoLive(attests)
    ensures DistinctSigners(Live(attests, messageId))
  {
    if attests != [] {
      var n := |attests| - 1;
      var init := attests[..n];
      assert NoTwoLive(init);
      LiveDistinct(init, messageId);
      var rest := Live(init, messageId);
      forall i | 0 <= i < |rest| && attests[n].messageId == messageId && attests[n].supersededAt == None
        ensures rest[i].signerKeyId != attests[n].signerKeyId
      {
        LiveMembers(init, messageId, rest[i]);
        var j :| 0 <= j < n && attests[j] == rest[i];
        assert !SamePair(attests[j], attests[n]);
      }
    }
  }

  /** Each (message, signer) pair has at most one live attestation, and its status
      is the one the signer gave last. */
  lemma LiveIsStatusBy(attests: seq<Attestation>, messageId: int)
    requires LiveIsLatest(attests)
    ensures DistinctSigners(Live(attests, messageId))
    ensures forall a | a in Live(attests, messageId) :: StatusBy(attests, messageId, a.signerKeyId) == Some(a.status)
    ensures forall k :: StatusBy(attests, messageId, k) != None ==>
              exists a :: a in Live(attests, messageId) && a.signerKeyId == k
  {
    assert NoTwoLive(attests) by {
      forall i, j | 0 <= i < j < |attests| && attests[i].supersededAt == None == attests[j].supersededAt
        ensures !SamePair(attests[i], attests[j]) { assert IsLatest(attests, i); }
    }
    LiveDistinct(attests, messageId);
    forall a | a in Live(attests, messageId) ensures StatusBy(attests, messageId, a.signerKeyId) == Some(a.status) {
      LiveMembers(attests, messageId, a);
      var i :| 0 <= i < |attests| && attests[i] == a;
      StatusByLatest(attests, messageId, a.signerKeyId);
      assert IsLatest(attests, i) && By(attests[i], messageId, a.signerKeyId);
    }
    forall k | StatusBy(attests, messageId, k) != None
      ensures exists a :: a in Live(attests, messageId) && a.signerKeyId == k
    {
      StatusByLatest(attests, messageId, k);
      var i :| 0 <= i < |attests| && By(attests[i], messageId, k) && IsLatest(attests, i);
      LiveMembers(attests, messageId, attests[i]);
    }
  }

  // ---- The condition, agent by agent ------------------------------------------------

  /** Every key that attested the message belongs to an agent of the document. */
  predicate NamesSigners(doc: Document, attests: seq<Attestation>, messageId: int) {
    forall a | a in attests && a.messageId == messageId ::
      exists n :: n in doc.agents && doc.agents[n].keyId == a.signerKeyId
  }

  /** The status an agent gave last, "" if none. */
  function StatusNow(doc: Document, attests: seq<Attestation>, messageId: int, agent: string): string {
    if agent !in doc.agents then "" else
      match StatusBy(attests, messageId, doc.agents[agent].keyId)
      case None => ""
      case Some(s) => s
  }

  function AgentsSaying(doc: Document, attests: seq<Attestation>, messageId: int, status: string): set<string> {
    set n | n in doc.agents && StatusBy(attests, messageId, doc.agents[n].keyId) == Some(status)
  }

  /** A condition stated over what the agents said last. */
  predicate Holds(cond: Condition, doc: Document, attests: seq<Attestation>, messageId: int) {
    var denies := AgentsSaying(doc, attests, messageId, "deny");
    if cond.anyDeny == Some(true) then denies != {}
    else
      && (cond.anyDeny == Some(false) ==> denies == {})
      && (forall r | r in cond.require :: StatusNow(doc, attests, messageId, r.agent) == r.status)
      && (cond.minOk > 0 ==> |AgentsSaying(doc, attests, messageId, "ok")| >= cond.minOk)
  }

  lemma NameOfKey(doc: Document, keyId: string)
    requires DistinctKeyIds(doc) && exists n :: n in doc.agents && doc.agents[n].keyId == keyId
    ensures NameOf(doc, keyId) in doc.agents && doc.agents[NameOf(doc, keyId)].keyId == keyId
  {
  }

  /** The entries of a view, in the order of the live attestations, name their signers. */
  ghost predicate NamesInOrder(doc: Document, live: seq<Attestation>, atts: seq<AttestationView>) {
    && |atts| == |live|
    && forall i | 0 <= i < |live| ::
         && atts[i].agentName in doc.agents && doc.agents[atts[i].agentName].keyId == live[i].signerKeyId
         && atts[i].status == live[i].status
  }

  lemma ViewNamesInOrder(doc: Document, attests: seq<Attestation>, m: Message)
    requires DistinctKeyIds(doc) && NamesSigners(doc, attests, m.id)
    ensures NamesInOrder(doc, Live(attests, m.id), ViewOf(doc, attests, m).attestations)
  {
    var live := Live(attests, m.id);
    forall i | 0 <= i < |live|
      ensures NameOf(doc, live[i].signerKeyId) in doc.agents
        && doc.agents[NameOf(doc, live[i].signerKeyId)].keyId == live[i].signerKeyId
    {
      LiveMembers(attests, m.id, live[i]);
      NameOfKey(doc, live[i].signerKeyId);
    }
  }

  lemma EntryStatus(doc: Document, attests: seq<Attestation>, id: int, live: seq<Attestation>,
      atts: seq<AttestationView>, n: string)
    requires NamesInOrder(doc, live, atts) && DistinctNames(atts) && n in Latest(atts)
    requires forall a | a in live :: StatusBy(attests, id, a.signerKeyId) == Some(a.status)
    ensures n in doc.agents && StatusBy(attests, id, doc.agents[n].keyId) == Some(Latest(atts)[n])
  {
    LatestIsGraph(atts);
    var i :| 0 <= i < |atts| && atts[i].agentName == n;
    assert live[i] in live;
  }

  lemma EntryExists(doc: Document, live: seq<Attestation>, atts: seq<AttestationView>, n: string, a: Attestation)
    requires DistinctKeyIds(doc) && NamesInOrder(doc, live, atts) && DistinctNames(atts)
    requires n in doc.agents && a in live && a.signerKeyId == doc.agents[n].keyId
    ensures n in Latest(atts)
  {
    LatestIsGraph(atts);
    var i :| 0 <= i < |live| && live[i] == a;
    assert atts[i].agentName == n;
  }

  /** The view of a message holds one entry per agent that attested it, with the
      status that agent gave last. */
  lemma ViewIsStatusNow(doc: Document, attests: seq<Attestation>, m: Message)
    requires DistinctKeyIds(doc) && LiveIsLatest(attests) && NamesSigners(doc, attests, m.id)
    ensures var latest := Latest(ViewOf(doc, attests, m).attestations);
            && DistinctNames(ViewOf(doc, attests, m).attestations)
            && (forall n | n in latest ::
              n in doc.agents && StatusBy(attests, m.id, doc.agents[n].keyId) == Some(latest[n]))
            && (forall n | n in doc.agents && StatusBy(attests, m.id, doc.agents[n].keyId) != None :: n in latest)
  {
    var live := Live(attests, m.id);
    var atts := ViewOf(doc, attests, m).attestations;
    LiveIsStatusBy(attests, m.id);
    ViewNamesInOrder(doc, attests, m);
    assert DistinctNames(atts);
    forall n | n in Latest(atts)
      ensures n in doc.agents && StatusBy(attests, m.id, doc.agents[n].keyId) == Some(Latest(atts)[n])
    {
      EntryStatus(doc, attests, m.id, live, atts, n);
    }
    forall n | n in doc.agents && StatusBy(attests, m.id, doc.agents[n].keyId) != None ensures n in Latest(atts) {
      var a :| a in live && a.signerKeyId == doc.agents[n].keyId;
      EntryExists(doc, live, atts, n, a);
    }
  }

  /** MatchCondition on a stored message decides the condition over the agents'
      latest statuses; its ok count is the number of agents whose latest status is ok. */
  lemma MatchMeansHolds(cond: Condition, doc: Document, attests: seq<Attestation>, m: Message)
    requires DistinctKeyIds(doc) && LiveIsLatest(attests) && NamesSigners(doc, attests, m.id)
    ensures Matches(cond, ViewOf(doc, attests, m)) <==>
              (cond.authors != [] ==> NameOf(doc, m.authorKeyId) in cond.authors) && Holds(cond, doc, attests, m.id)
    ensures WithStatus(Latest(ViewOf(doc, attests, m).attestations), "ok") == AgentsSaying(doc, attests, m.id, "ok")
  {
    var latest := Latest(ViewOf(doc, attests, m).attestations);
    ViewIsStatusNow(doc, attests, m);
    SameAgents(doc, attests, m, latest, "ok");
    SameAgents(doc, attests, m, latest, "deny");
    forall r | r in cond.require ensures StatusIn(latest, r.agent) == StatusNow(doc, attests, m.id, r.agent) {
    }
  }

  lemma SameAgents(doc: Document, attests: seq<Attestation>, m: Message, latest: map<string, string>, status: string)
    requires forall n | n in latest ::
      n in doc.agents && StatusBy(attests, m.id, doc.agents[n].keyId) == Some(latest[n])
    requires forall n | n in doc.agents && StatusBy(attests, m.id, doc.agents[n].keyId) != None :: n in latest
    ensures WithStatus(latest, status) == AgentsSaying(doc, attests, m.id, status)
  {
  }

  // ---- Changing a condition ------------------------------------------------------------

  lemma {:induction false} SupersedeKeepsStatus(attests: seq<Attestation>, id: int, key: string, now: string,
      messageId: int, keyId: string)
    ensures StatusBy(Supersede(attests, id, key, now), messageId, keyId) == StatusBy(attests, messageId, keyId)
  {
    if attests != [] {
      var n := |attests| - 1;
      assert Supersede(attests, id, key, now)[..n] == Supersede(attests[..n], id, key, now);
      SupersedeKeepsStatus(attests[..n], id, key, now, messageId, keyId);
    }
  }

  function Saying(a: AttestationView): Attestation {
    Attestation(0, "", 1, a.agentName, 1, a.status, "", "", "", "", None)
  }

  /** One message by the author, attested as the list says, each agent with a key of
      its own name. */
  function AttestedBy(author: string, atts: seq<AttestationView>): Topic {
    if atts == [] then OneMessage(author, 0)
    else AppendAttestation(AttestedBy(author, atts[..|atts| - 1]), Saying(atts[|atts| - 1]))
  }

  ghost predicate SaysLatest(t: Topic, atts: seq<AttestationView>) {
    && (forall n :: StatusBy(t.attests, 1, n) == if n in Latest(atts) then Some(Latest(atts)[n]) else None)
    && (forall a | a in t.attests :: a.signerKeyId in Latest(atts))
  }

  lemma AttestSays(t: Topic, atts: seq<AttestationView>, a: AttestationView)
    requires SaysLatest(t, atts)
    ensures SaysLatest(AppendAttestation(t, Saying(a)), atts + [a])
  {
    var old', t' := t.attests, AppendAttestation(t, Saying(a));
    var changed := Supersede(old', 1, a.agentName, "");
    assert t'.attests[..|old'|] == changed && (atts + [a])[..|atts|] == atts;
    forall n ensures StatusBy(t'.attests, 1, n) == if n == a.agentName then Some(a.status) else StatusBy(old', 1, n) {
      SupersedeKeepsStatus(old', 1, a.agentName, "", 1, n);
    }
    forall x | x in t'.attests ensures x.signerKeyId in Latest(atts + [a]) {
      var i :| 0 <= i < |t'.attests| && t'.attests[i] == x;
      assert i < |old'| ==> old'[i] in old' && changed[i].signerKeyId == old'[i].signerKeyId;
    }
  }

  lemma {:induction false} AttestedByIs(author: string, atts: seq<AttestationView>)
    ensures var t := AttestedBy(author, atts);
            && Consistent(t) && t.messages == OneMessage(author, 0).messages && t.delivered == map["c" := {}]
            && SaysLatest(t, atts)
  {
    if atts == [] {
      OneMessageConsistent(author, 0);
    } else {
      var n := |atts| - 1;
      AttestedByIs(author, atts[..n]);
      AppendAttestationKeeps(AttestedBy(author, atts[..n]), Saying(atts[n]));
      AttestSays(AttestedBy(author, atts[..n]), atts[..n], atts[n]);
      assert atts[..n] + [atts[n]] == atts;
    }
  }

  /** A document in which every one of these names holds a key of the same name. */
  function NamesThemselves(names: set<string>): Document {
    Document("", "", 1, "", false, map n | n in names :: AgentRef(n, "", ""), [], [], [], 0, map[])
  }

  lemma SelfNamed(names: set<string>)
    ensures DistinctKeyIds(NamesThemselves(names))
    ensures forall n | n in names :: NameOf(NamesThemselves(names), n) == n
  {
    var doc := NamesThemselves(names);
    forall n | n in names ensures NameOf(doc, n) == n {
      assert n in doc.agents && doc.agents[n].keyId == n;
      NameOfKey(doc, n);
    }
  }

  lemma ViewSays(names: set<string>, t: Topic, atts: seq<AttestationView>, m: Message)
    requires m.id == 1 && LiveIsLatest(t.attests) && SaysLatest(t, atts) && Latest(atts).Keys <= names
    ensures Latest(ViewOf(NamesThemselves(names), t.attests, m).attestations) == Latest(atts)
  {
    var doc := NamesThemselves(names);
    SelfNamed(names);
    forall a | a in t.attests ensures exists n :: n in doc.agents && doc.agents[n].keyId == a.signerKeyId {
      assert a.signerKeyId in doc.agents;
    }
    ViewIsStatusNow(doc, t.attests, m);
  }

  /** The topic with everything read by "c". */
  function AllRead(t: Topic): Topic { t.(cursors := map["c" := |t.events|]) }

  lemma AllReadIs(t: Topic)
    requires Consistent(t)
    ensures Consistent(AllRead(t)) && forall id :: !Announced(AllRead(t), "c", id)
  {
  }

  lemma SameDecision(view: MessageView, other: MessageView, cond: Condition)
    requires view.authorName == other.authorName && Latest(view.attestations) == Latest(other.attestations)
    ensures Matches(cond, view) <==> Matches(cond, other)
  {
  }

  /** For the purpose of conditions every view there can be is the view of a message
      in a consistent topic, under a document with distinct keys. */
  lemma ViewArises(view: MessageView) returns (t: Topic, doc: Document)
    ensures Consistent(t) && DistinctKeyIds(doc) && |t.messages| == 1 && t.messages[0].id == 1
    ensures DeliveredTo(t, "c") == {} && !Announced(t, "c", 1)
    ensures forall cond :: MatchesNow(t, doc, cond, t.messages[0]) <==> Matches(cond, view)
  {
    var latest, author := Latest(view.attestations), view.authorName;
    AttestedByIs(author, view.attestations);
    t, doc := AllRead(AttestedBy(author, view.attestations)), NamesThemselves(latest.Keys + {author});
    SelfNamed(latest.Keys + {author});
    AllReadIs(AttestedBy(author, view.attestations));
    ViewSays(latest.Keys + {author}, t, view.attestations, t.messages[0]);
    forall cond ensures MatchesNow(t, doc, cond, t.messages[0]) <==> Matches(cond, view) {
      SameDecision(ViewOf(doc, t.attests, t.messages[0]), view, cond);
    }
  }

  /** What is not lost under one condition is not lost under the other, on any topic and
      under any document that names every key once. */
  ghost predicate ConditionMoves(d: Condition, e: Condition) {
    forall t, doc, consumer | Consistent(t) && DistinctKeyIds(doc) && NothingLost(t, doc, d, consumer) ::
      NothingLost(t, doc, e, consumer)
  }

  /** A policy that gives a condition another meaning loses nothing if and only if the
      new meaning selects no view that the old one did not. */
  lemma RedefiningExactly(d: Condition, e: Condition)
    ensures ConditionMoves(d, e) <==> forall view :: Matches(e, view) ==> Matches(d, view)
  {
    if ConditionMoves(d, e) {
      forall view | Matches(e, view) ensures Matches(d, view) {
        LostUnlessMatched(d, e, view);
      }
    }
  }

  lemma LostUnlessMatched(d: Condition, e: Condition, view: MessageView)
    requires ConditionMoves(d, e) && Matches(e, view)
    ensures Matches(d, view)
  {
    var t, doc := ViewArises(view);
    assert MatchesNow(t, doc, e, t.messages[0]) && (MatchesNow(t, doc, d, t.messages[0]) <==> Matches(d, view));
    assert !NothingLost(t, doc, e, "c");
  }
}
