/** The incremental Consume against a plain scan of all messages. */
module Delivery {
  import opened Wrappers
  import opened Policy
  import opened Filter
  import opened Topic
  import opened TopicLaws

  // ---- The one view of a message when no two agents share a key ---------------------

  ghost function ViewOf(doc: Document, attests: seq<Attestation>, m: Message): MessageView {
    var live := Live(attests, m.id);
    MessageView(m.authorKeyId, NameOf(doc, m.authorKeyId),
      seq(|live|, i requires 0 <= i < |live| =>
        AttestationView(NameOf(doc, live[i].signerKeyId), live[i].signerKeyId, live[i].status)))
  }

  lemma ViewIsUnique(doc: Document, attests: seq<Attestation>, m: Message, view: MessageView)
    requires DistinctKeyIds(doc)
    ensures IsView(doc, attests, m, view) <==> view == ViewOf(doc, attests, m)
  {
    var live := Live(attests, m.id);
    NameAnswers(doc, m.authorKeyId);
    forall i | 0 <= i < |live| ensures Answers(doc, live[i].signerKeyId, NameOf(doc, live[i].signerKeyId)) {
      NameAnswers(doc, live[i].signerKeyId);
    }
    if IsView(doc, attests, m, view) {
      AnswerIsName(doc, m.authorKeyId, view.authorName);
      forall i | 0 <= i < |live|
        ensures view.attestations[i] == AttestationView(NameOf(doc, live[i].signerKeyId), live[i].signerKeyId,
          live[i].status)
      {
        AnswerIsName(doc, live[i].signerKeyId, view.attestations[i].agentName);
      }
      assert view.attestations == ViewOf(doc, attests, m).attestations;
    }
  }

  lemma NameAnswers(doc: Document, keyId: string)
    ensures Answers(doc, keyId, NameOf(doc, keyId))
  {
  }

  lemma AnswerIsName(doc: Document, keyId: string, name: string)
    requires DistinctKeyIds(doc) && Answers(doc, keyId, name)
    ensures name == NameOf(doc, keyId)
  {
    NameIsUnique(doc, keyId, name, NamesKey(doc, keyId, name, true));
  }

  // ---- What the loop does -----------------------------------------------------------

  function Ids(messages: seq<Message>): set<nat> { set m | m in messages :: m.id }

  /** out holds stored messages, none of them in done, none twice. */
  predicate FreshBatch(t: Topic, done: set<nat>, out: seq<Message>) {
    && (forall i | 0 <= i < |out| :: 1 <= out[i].id <= |t.messages| && out[i] == t.messages[out[i].id - 1])
    && (forall i | 0 <= i < |out| :: out[i].id !in done)
    && (forall i, j | 0 <= i < j < |out| :: out[i].id != out[j].id)
  }

  /** The view under which a message went out. */
  predicate MatchedAt(t: Topic, cond: Condition, views: seq<MessageView>, m: Message)
    requires |views| == |t.events|
  {
    exists k :: 0 <= k < |views| && t.events[k].messageId == m.id && Matches(cond, views[k])
  }

  /** Every event in [from, to) was delivered or did not match. */
  predicate Settled(t: Topic, cond: Condition, views: seq<MessageView>, done: set<nat>, from: nat, to: nat)
    requires |views| == |t.events|
  {
    forall k | from <= k < to && k < |views| :: t.events[k].messageId in done || !Matches(cond, views[k])
  }

  predicate Outcome(t: Topic, cond: Condition, views: seq<MessageView>, max: nat, done: set<nat>, from: nat,
      q: Progress)
    requires |views| == |t.events|
  {
    && from <= q.last <= |t.events|
    && q.done == done + Ids(q.out)
    && FreshBatch(t, done, q.out)
    && (forall i | 0 <= i < |q.out| :: MatchedAt(t, cond, views, q.out[i]))
    && Settled(t, cond, views, q.done, from, q.last)
    && (|q.out| < max ==> q.last == |t.events|)
    && |q.out| <= max
  }

  /** The loop invariant: what holds when the loop stands before event i. */
  predicate Midway(t: Topic, cond: Condition, views: seq<MessageView>, max: nat, done: set<nat>, from: nat, i: nat,
      p: Progress)
    requires |views| == |t.events|
  {
    && from <= p.last <= |t.events| && i <= |t.events|
    && p.last == (if i < from then from else i)
    && p.done == done + Ids(p.out)
    && FreshBatch(t, done, p.out)
    && (forall j | 0 <= j < |p.out| :: MatchedAt(t, cond, views, p.out[j]))
    && Settled(t, cond, views, p.done, from, p.last)
    && |p.out| < max
  }

  lemma IdsOneMore(out: seq<Message>, m: Message)
    ensures Ids(out + [m]) == Ids(out) + {m.id}
  {
    assert forall x :: x in out + [m] <==> x in out || x == m;
  }

  lemma AddDelivered(t: Topic, done: set<nat>, out: seq<Message>, m: Message)
    requires FreshBatch(t, done, out)
    requires 1 <= m.id <= |t.messages| && m == t.messages[m.id - 1] && m.id !in done + Ids(out)
    ensures FreshBatch(t, done, out + [m])
    ensures Ids(out + [m]) == Ids(out) + {m.id}
  {
    IdsOneMore(out, m);
    forall i | 0 <= i < |out| ensures out[i].id != m.id {
      assert out[i] in out;
    }
  }

  lemma PassEvent(t: Topic, cond: Condition, views: seq<MessageView>, max: nat, done: set<nat>, from: nat, i: nat,
      p: Progress)
    requires Dense(t) && |views| == |t.events| && i < |t.events| && p.last <= i
    requires Midway(t, cond, views, max, done, from, i, p)
    requires t.events[i].messageId in p.done || !Matches(cond, views[i])
    ensures Midway(t, cond, views, max, done, from, i + 1, p.(last := t.events[i].id))
  {
    assert Settled(t, cond, views, p.done, from, i + 1);
  }

  lemma SettleOneMore(t: Topic, cond: Condition, views: seq<MessageView>, done: set<nat>, from: nat, i: nat)
    requires |views| == |t.events| && i < |t.events| && 0 <= t.events[i].messageId
    requires Settled(t, cond, views, done, from, i)
    ensures Settled(t, cond, views, done + {t.events[i].messageId}, from, i + 1)
  {
  }

  lemma MatchOneMore(t: Topic, cond: Condition, views: seq<MessageView>, out: seq<Message>, m: Message)
    requires |views| == |t.events| && MatchedAt(t, cond, views, m)
    requires forall j | 0 <= j < |out| :: MatchedAt(t, cond, views, out[j])
    ensures forall j | 0 <= j < |out + [m]| :: MatchedAt(t, cond, views, (out + [m])[j])
  {
  }

  lemma DeliverEvent(t: Topic, cond: Condition, views: seq<MessageView>, max: nat, done: set<nat>, from: nat, i: nat,
      p: Progress, m: Message)
    requires Dense(t) && |views| == |t.events| && i < |t.events| && p.last <= i
    requires Midway(t, cond, views, max, done, from, i, p)
    requires t.events[i].messageId !in p.done && Matches(cond, views[i])
    requires m == t.messages[t.events[i].messageId - 1]
    ensures var q := Progress(t.events[i].id, p.done + {m.id}, p.out + [m]);
            if |q.out| < max then Midway(t, cond, views, max, done, from, i + 1, q)
            else Outcome(t, cond, views, max, done, from, q)
  {
    AddDelivered(t, done, p.out, m);
    assert MatchedAt(t, cond, views, m);
    MatchOneMore(t, cond, views, p.out, m);
    SettleOneMore(t, cond, views, p.done, from, i);
    assert p.done + {m.id} == done + Ids(p.out + [m]);
  }

  /** One round of the loop, in a topic whose events name stored messages. */
  lemma ScanRound(t: Topic, cond: Condition, views: seq<MessageView>, max: nat, i: nat, p: Progress)
    requires Dense(t) && |views| == |t.events| && i < |t.events|
    ensures var ev := t.events[i];
            var m := t.messages[ev.messageId - 1];
            var q := Progress(ev.id, p.done + {m.id}, p.out + [m]);
            Scan(t, cond, views, max, i, p) ==
              if ev.id <= p.last then Scan(t, cond, views, max, i + 1, p)
              else if ev.messageId in p.done || !Matches(cond, views[i]) then
                Scan(t, cond, views, max, i + 1, p.(last := ev.id))
              else if |q.out| >= max then q else Scan(t, cond, views, max, i + 1, q)
  {
    FindDense(t.messages, 0, t.events[i].messageId);
  }

  lemma {:induction false} ScanOutcome(t: Topic, cond: Condition, views: seq<MessageView>, max: nat, done: set<nat>,
      from: nat, i: nat, p: Progress)
    requires Dense(t) && |views| == |t.events|
    requires Midway(t, cond, views, max, done, from, i, p)
    ensures Outcome(t, cond, views, max, done, from, Scan(t, cond, views, max, i, p))
    decreases |t.events| - i
  {
    if i < |t.events| {
      var ev := t.events[i];
      ScanRound(t, cond, views, max, i, p);
      if ev.id <= p.last {
        ScanOutcome(t, cond, views, max, done, from, i + 1, p);
      } else if ev.messageId in p.done || !Matches(cond, views[i]) {
        PassEvent(t, cond, views, max, done, from, i, p);
        ScanOutcome(t, cond, views, max, done, from, i + 1, p.(last := ev.id));
      } else {
        var m := t.messages[ev.messageId - 1];
        DeliverEvent(t, cond, views, max, done, from, i, p, m);
        var q := Progress(ev.id, p.done + {m.id}, p.out + [m]);
        if |q.out| < max { ScanOutcome(t, cond, views, max, done, from, i + 1, q); }
      }
    }
  }

  /** One Consume: the cursor moves forward within the log, the batch is fresh and
      matched, every event passed over is settled, and a short batch means the
      whole log was read. */
  lemma ConsumeOutcome(t: Topic, consumer: string, cond: Condition, views: seq<MessageView>, max: nat)
    requires Consistent(t) && |views| == |t.events| && max > 0
    ensures Outcome(t, cond, views, max, DeliveredTo(t, consumer), CursorOf(t, consumer), Consumed(t, consumer, cond,
      views, max))
  {
    var p := Progress(CursorOf(t, consumer), DeliveredTo(t, consumer), []);
    assert Ids([]) == {};
    ScanOutcome(t, cond, views, max, p.done, p.last, 0, p);
  }

  // ---- No lost delivery -------------------------------------------------------------

  /** The message matches in the present state of the topic. */
  ghost predicate MatchesNow(t: Topic, doc: Document, cond: Condition, m: Message) {
    Matches(cond, ViewOf(doc, t.attests, m))
  }

  /** Some event above the cursor still names the message. */
  predicate Announced(t: Topic, consumer: string, id: int) {
    exists k :: CursorOf(t, consumer) <= k < |t.events| && t.events[k].messageId == id
  }

  ghost predicate NothingLost(t: Topic, doc: Document, cond: Condition, consumer: string) {
    forall i | 0 <= i < |t.messages| ::
      var m := t.messages[i];
      m.id in DeliveredTo(t, consumer) || !MatchesNow(t, doc, cond, m) || Announced(t, consumer, m.id)
  }

  /** What a plain scan over all messages would select. */
  ghost function FullScan(t: Topic, doc: Document, cond: Condition): set<nat> {
    set i | 0 <= i < |t.messages| && MatchesNow(t, doc, cond, t.messages[i]) :: t.messages[i].id
  }

  lemma StaysAnnounced(t: Topic, t': Topic, consumer: string, id: int)
    requires t.events <= t'.events && CursorOf(t', consumer) == CursorOf(t, consumer)
    requires Announced(t, consumer, id)
    ensures Announced(t', consumer, id)
  {
    var k :| CursorOf(t, consumer) <= k < |t.events| && t.events[k].messageId == id;
    assert t'.events[k].messageId == id;
  }

  lemma NewestAnnounced(t: Topic, consumer: string)
    requires t.events != [] && CursorOf(t, consumer) < |t.events|
    ensures Announced(t, consumer, t.events[|t.events| - 1].messageId)
  {
  }

  lemma MessageLosesNothing(t: Topic, m: Message, doc: Document, cond: Condition, consumer: string)
    requires Consistent(t) && NothingLost(t, doc, cond, consumer)
    ensures NothingLost(AppendMessage(t, m), doc, cond, consumer)
  {
    var t' := AppendMessage(t, m);
    NewestAnnounced(t', consumer);
    forall i | 0 <= i < |t'.messages|
      ensures t'.messages[i].id in DeliveredTo(t', consumer) || !MatchesNow(t', doc, cond, t'.messages[i])
        || Announced(t', consumer, t'.messages[i].id)
    {
      if i < |t.messages| && Announced(t, consumer, t.messages[i].id) {
        StaysAnnounced(t, t', consumer, t.messages[i].id);
      }
    }
  }

  lemma {:induction false} LiveAfterSupersede(attests: seq<Attestation>, messageId: int, keyId: string, now: string,
      id: int)
    requires id != messageId
    ensures Live(Supersede(attests, messageId, keyId, now), id) == Live(attests, id)
  {
    if attests != [] {
      var n := |attests| - 1;
      LiveAfterSupersede(attests[..n], messageId, keyId, now, id);
      assert Supersede(attests, messageId, keyId, now)[..n] == Supersede(attests[..n], messageId, keyId, now);
    }
  }

  /** An attestation changes the view of its own message only. */
  lemma OtherViewsUnchanged(t: Topic, a: Attestation, id: int)
    requires id != a.messageId
    ensures Live(AppendAttestation(t, a).attests, id) == Live(t.attests, id)
  {
    var t' := AppendAttestation(t, a);
    var n := |t'.attests| - 1;
    assert t'.attests[..n] == Supersede(t.attests, a.messageId, a.signerKeyId, a.createdAt);
    LiveAfterSupersede(t.attests, a.messageId, a.signerKeyId, a.createdAt, id);
  }

  lemma AttestationLosesNothing(t: Topic, a: Attestation, doc: Document, cond: Condition, consumer: string)
    requires Consistent(t) && NothingLost(t, doc, cond, consumer)
    ensures NothingLost(AppendAttestation(t, a), doc, cond, consumer)
  {
    var t' := AppendAttestation(t, a);
    NewestAnnounced(t', consumer);
    forall i | 0 <= i < |t'.messages|
      ensures t'.messages[i].id in DeliveredTo(t', consumer) || !MatchesNow(t', doc, cond, t'.messages[i])
        || Announced(t', consumer, t'.messages[i].id)
    {
      var m := t.messages[i];
      if m.id != a.messageId {
        OtherViewsUnchanged(t, a, m.id);
        assert ViewOf(doc, t'.attests, m) == ViewOf(doc, t.attests, m);
        if Announced(t, consumer, m.id) { StaysAnnounced(t, t', consumer, m.id); }
      }
    }
  }

  /** The keys that signed something in the topic. */
  ghost function KeysIn(t: Topic): iset<string> {
    (iset m | m in t.messages :: m.authorKeyId) + (iset a | a in t.attests :: a.signerKeyId)
  }

  /** For each of these keys the other document has one answer, the name doc gives it.
      Agents with other keys, public keys, rules and conditions may differ. */
  ghost predicate NamesAs(doc: Document, other: Document, keys: iset<string>) {
    forall key, name | key in keys && Answers(other, key, name) :: name == NameOf(doc, key)
  }

  /** A document whose agents hold distinct keys names every key as itself. */
  lemma NamesAsItself(doc: Document, keys: iset<string>)
    requires DistinctKeyIds(doc)
    ensures NamesAs(doc, doc, keys)
  {
    forall key, name | key in keys && Answers(doc, key, name) ensures name == NameOf(doc, key) {
      AnswerIsName(doc, key, name);
    }
  }

  lemma {:induction false} LiveStored(attests: seq<Attestation>, messageId: int, i: nat)
    requires i < |Live(attests, messageId)|
    ensures Live(attests, messageId)[i] in attests
  {
    var init := attests[..|attests| - 1];
    if i < |Live(init, messageId)| { LiveStored(init, messageId, i); }
  }

  lemma ViewBy(t: Topic, doc: Document, other: Document, m: Message, view: MessageView)
    requires m in t.messages && NamesAs(doc, other, KeysIn(t)) && IsView(other, t.attests, m, view)
    ensures view == ViewOf(doc, t.attests, m)
  {
    var live := Live(t.attests, m.id);
    assert m.authorKeyId in KeysIn(t);
    forall i | 0 <= i < |live|
      ensures view.attestations[i] == AttestationView(NameOf(doc, live[i].signerKeyId), live[i].signerKeyId,
        live[i].status)
    {
      LiveStored(t.attests, m.id, i);
      assert live[i].signerKeyId in KeysIn(t);
    }
    assert view.attestations == ViewOf(doc, t.attests, m).attestations;
  }

  /** The document the views of a Consume were built with may differ from doc, as
      long as it names the keys that signed something alike. */
  lemma ViewsAgree(t: Topic, doc: Document, other: Document, views: seq<MessageView>, k: nat)
    requires Dense(t) && NamesAs(doc, other, KeysIn(t)) && AreViews(other, t, views) && k < |views|
    ensures views[k] == ViewOf(doc, t.attests, t.messages[t.events[k].messageId - 1])
  {
    var id := t.events[k].messageId;
    FindDense(t.messages, 0, id);
    ViewBy(t, doc, other, t.messages[id - 1], views[k]);
  }

  lemma ConsumeLosesNothing(t: Topic, doc: Document, other: Document, cond: Condition, consumer: string,
      views: seq<MessageView>, max: nat)
    requires Consistent(t) && NothingLost(t, doc, cond, consumer) && max > 0
    requires NamesAs(doc, other, KeysIn(t)) && AreViews(other, t, views)
    ensures NothingLost(AfterConsume(t, consumer, Consumed(t, consumer, cond, views, max)), doc, cond, consumer)
  {
    var q := Consumed(t, consumer, cond, views, max);
    var t' := AfterConsume(t, consumer, q);
    ConsumeOutcome(t, consumer, cond, views, max);
    forall i | 0 <= i < |t'.messages|
      ensures t'.messages[i].id in DeliveredTo(t', consumer) || !MatchesNow(t', doc, cond, t'.messages[i])
        || Announced(t', consumer, t'.messages[i].id)
    {
      var m := t.messages[i];
      if m.id !in q.done && MatchesNow(t, doc, cond, m) {
        assert Announced(t, consumer, m.id);
        StillAnnounced(t, doc, other, cond, consumer, views, max, i);
      }
    }
  }

  /** An event of an undelivered match is not passed. */
  lemma StillAnnounced(t: Topic, doc: Document, other: Document, cond: Condition, consumer: string,
      views: seq<MessageView>, max: nat, i: nat)
    requires Consistent(t) && max > 0 && NamesAs(doc, other, KeysIn(t)) && AreViews(other, t, views)
    requires i < |t.messages| && Announced(t, consumer, t.messages[i].id) && MatchesNow(t, doc, cond, t.messages[i])
    requires t.messages[i].id !in Consumed(t, consumer, cond, views, max).done
    ensures Announced(AfterConsume(t, consumer, Consumed(t, consumer, cond, views, max)), consumer, t.messages[i].id)
  {
    ConsumeOutcome(t, consumer, cond, views, max);
    var k :| CursorOf(t, consumer) <= k < |t.events| && t.events[k].messageId == t.messages[i].id;
    ViewsAgree(t, doc, other, views, k);
    assert k >= Consumed(t, consumer, cond, views, max).last;
  }

  /** Another consumer's Consume touches neither this cursor nor this delivered set. */
  lemma OthersLoseNothing(t: Topic, doc: Document, cond: Condition, consumer: string, other: string, p: Progress)
    requires NothingLost(t, doc, cond, consumer) && other != consumer
    ensures NothingLost(AfterConsume(t, other, p), doc, cond, consumer)
  {
    var t' := AfterConsume(t, other, p);
    forall i | 0 <= i < |t'.messages|
      ensures t'.messages[i].id in DeliveredTo(t', consumer) || !MatchesNow(t', doc, cond, t'.messages[i])
        || Announced(t', consumer, t'.messages[i].id)
    {
      if Announced(t, consumer, t.messages[i].id) { StaysAnnounced(t, t', consumer, t.messages[i].id); }
    }
  }

  /** A Consume that returns less than it may leaves nothing for a full scan:
      every message that matches now has been delivered. */
  lemma ShortBatchMeansCaughtUp(t: Topic, doc: Document, other: Document, cond: Condition, consumer: string,
      views: seq<MessageView>, max: nat)
    requires Consistent(t) && NothingLost(t, doc, cond, consumer) && max > 0
    requires NamesAs(doc, other, KeysIn(t)) && AreViews(other, t, views)
    requires |Consumed(t, consumer, cond, views, max).out| < max
    ensures var t' := AfterConsume(t, consumer, Consumed(t, consumer, cond, views, max));
            FullScan(t', doc, cond) <= DeliveredTo(t', consumer)
  {
    ConsumeOutcome(t, consumer, cond, views, max);
    ConsumeLosesNothing(t, doc, other, cond, consumer, views, max);
    var t' := AfterConsume(t, consumer, Consumed(t, consumer, cond, views, max));
    assert CursorOf(t', consumer) == |t'.events|;
    forall i | 0 <= i < |t'.messages| && MatchesNow(t', doc, cond, t'.messages[i])
      ensures t'.messages[i].id in DeliveredTo(t', consumer)
    {
      assert !Announced(t', consumer, t'.messages[i].id);
    }
  }

  // ---- Exactly when nothing is lost ---------------------------------------------------

  /** One message of the key, read up to the cursor by consumer "c", never delivered. */
  function OneMessage(key: string, cursor: nat): Topic {
    Topic([], [Message(1, "", key, 1, "", "", map[], "", "", "", "")], [],
          [Event(1, MessagePublished, 1)], map["c" := cursor], map["c" := {}])
  }

  function ByAuthor(name: string): Condition { Condition([name], [], 0, None, "") }

  lemma OneMessageConsistent(key: string, cursor: nat)
    requires cursor <= 1
    ensures Consistent(OneMessage(key, cursor))
    ensures KeysIn(OneMessage(key, cursor)) == iset{key}
  {
    var t := OneMessage(key, cursor);
    assert t.events[..0] == [] && Published([]) == [] && Attested([]) == [];
  }

  lemma AuthorDecides(name: string, view: MessageView)
    requires view.attestations == []
    ensures Matches(ByAuthor(name), view) <==> view.authorName == name
  {
    assert Latest([]) == map[];
  }

  /** Whether the one message is lost depends on the author's name alone. */
  lemma OneMessageLost(doc: Document, key: string, cursor: nat, name: string)
    requires cursor <= 1
    ensures NothingLost(OneMessage(key, cursor), doc, ByAuthor(name), "c") <==> cursor == 0 || NameOf(doc, key) != name
  {
    var t := OneMessage(key, cursor);
    AuthorDecides(name, ViewOf(doc, t.attests, t.messages[0]));
    assert t.events[0].messageId == t.messages[0].id;
    assert Announced(t, "c", 1) <==> cursor == 0;
  }

  lemma PassesOne(key: string, name: string, view: MessageView)
    requires view.attestations == [] && view.authorName != name
    ensures AfterConsume(OneMessage(key, 0), "c", Consumed(OneMessage(key, 0), "c", ByAuthor(name), [view],
      1)) == OneMessage(key, 1)
  {
    AuthorDecides(name, view);
    var t := OneMessage(key, 0);
    assert FindMessage(t.messages, 1) == Some(t.messages[0]);
    assert Scan(t, ByAuthor(name), [view], 1, 1, Progress(1, {}, [])) == Progress(1, {}, []);
  }

  /** Every Consume with the other document, on topics signed with these keys, loses
      nothing of what doc's naming selects. */
  ghost predicate ConsumeKeeps(doc: Document, other: Document, keys: iset<string>) {
    forall t, cond, consumer, views, max: nat |
      Consistent(t) && KeysIn(t) <= keys && NothingLost(t, doc, cond, consumer) && max > 0
        && AreViews(other, t, views) ::
      NothingLost(AfterConsume(t, consumer, Consumed(t, consumer, cond, views, max)), doc, cond, consumer)
  }

  /** The condition is exact: a Consume can lose a message if and only if its document
      may give one of the keys another name, because it renames the key or because two
      of its agents share it. */
  lemma ConsumeKeepsExactly(doc: Document, other: Document, keys: iset<string>)
    ensures ConsumeKeeps(doc, other, keys) <==> NamesAs(doc, other, keys)
  {
    if NamesAs(doc, other, keys) {
      forall t, cond, consumer, views, max: nat |
        Consistent(t) && KeysIn(t) <= keys && NothingLost(t, doc, cond, consumer) && max > 0
          && AreViews(other, t, views)
        ensures NothingLost(AfterConsume(t, consumer, Consumed(t, consumer, cond, views, max)), doc, cond, consumer)
      {
        ConsumeLosesNothing(t, doc, other, cond, consumer, views, max);
      }
    }
    if ConsumeKeeps(doc, other, keys) {
      forall key, name | key in keys && Answers(other, key, name) ensures name == NameOf(doc, key) {
        AnswerMustAgree(doc, other, keys, key, name);
      }
    }
  }

  lemma OneMessageView(other: Document, key: string, name: string)
    requires Answers(other, key, name)
    ensures AreViews(other, OneMessage(key, 0), [MessageView(key, name, [])])
  {
    var t := OneMessage(key, 0);
    assert FindMessage(t.messages, 1) == Some(t.messages[0]);
  }

  lemma AnswerMustAgree(doc: Document, other: Document, keys: iset<string>, key: string, name: string)
    requires ConsumeKeeps(doc, other, keys) && key in keys && Answers(other, key, name)
    ensures name == NameOf(doc, key)
  {
    var wanted := NameOf(doc, key);
    var t := OneMessage(key, 0);
    var view := MessageView(key, name, []);
    OneMessageConsistent(key, 0);
    OneMessageLost(doc, key, 0, wanted);
    OneMessageLost(doc, key, 1, wanted);
    OneMessageView(other, key, name);
    if name != wanted {
      PassesOne(key, wanted, view);
    }
  }

  /** What is not lost under one document's naming is not lost under the other's. */
  ghost predicate NothingLostMoves(d: Document, e: Document, keys: iset<string>) {
    forall t, cond, consumer | Consistent(t) && KeysIn(t) <= keys && NothingLost(t, d, cond, consumer) ::
      NothingLost(t, e, cond, consumer)
  }

  lemma SameView(t: Topic, d: Document, e: Document, m: Message)
    requires m in t.messages && forall key | key in KeysIn(t) :: NameOf(d, key) == NameOf(e, key)
    ensures ViewOf(d, t.attests, m) == ViewOf(e, t.attests, m)
  {
    var live := Live(t.attests, m.id);
    assert m.authorKeyId in KeysIn(t);
    forall i | 0 <= i < |live| ensures NameOf(d, live[i].signerKeyId) == NameOf(e, live[i].signerKeyId) {
      LiveStored(t.attests, m.id, i);
      assert live[i].signerKeyId in KeysIn(t);
    }
    assert ViewOf(d, t.attests, m).attestations == ViewOf(e, t.attests, m).attestations;
  }

  lemma SameNamesSameLoss(t: Topic, d: Document, e: Document, cond: Condition, consumer: string)
    requires NothingLost(t, d, cond, consumer) && forall key | key in KeysIn(t) :: NameOf(d, key) == NameOf(e, key)
    ensures NothingLost(t, e, cond, consumer)
  {
    forall i | 0 <= i < |t.messages| ensures MatchesNow(t, d, cond, t.messages[i]) == MatchesNow(t, e, cond,
      t.messages[i]) {
      SameView(t, d, e, t.messages[i]);
    }
  }

  /** A change of policy loses nothing, on topics signed with these keys, if and only
      if it leaves the names of these keys as they are. */
  lemma RenamingExactly(d: Document, e: Document, keys: iset<string>)
    ensures NothingLostMoves(d, e, keys) <==> forall key | key in keys :: NameOf(d, key) == NameOf(e, key)
  {
    if forall key | key in keys :: NameOf(d, key) == NameOf(e, key) {
      forall t, cond, consumer | Consistent(t) && KeysIn(t) <= keys && NothingLost(t, d, cond, consumer)
        ensures NothingLost(t, e, cond, consumer)
      {
        SameNamesSameLoss(t, d, e, cond, consumer);
      }
    }
    if NothingLostMoves(d, e, keys) {
      forall key | key in keys ensures NameOf(d, key) == NameOf(e, key) {
        OneMessageConsistent(key, 1);
        OneMessageLost(d, key, 1, NameOf(e, key));
        OneMessageLost(e, key, 1, NameOf(e, key));
      }
    }
  }

  ghost const AllKeys: iset<string> := iset key: string | true

  /** Under one unchanged policy nothing is lost, on any topic, if and only if no two
      of its agents share a key. */
  lemma SharingExactly(doc: Document)
    ensures ConsumeKeeps(doc, doc, AllKeys) <==> DistinctKeyIds(doc)
  {
    ConsumeKeepsExactly(doc, doc, AllKeys);
    if DistinctKeyIds(doc) {
      NamesAsItself(doc, AllKeys);
    }
    if NamesAs(doc, doc, AllKeys) {
      forall m, n | m in doc.agents && n in doc.agents && doc.agents[m].keyId == doc.agents[n].keyId ensures m == n {
        assert Answers(doc, doc.agents[m].keyId, m) && Answers(doc, doc.agents[m].keyId, n);
      }
    }
  }
}
