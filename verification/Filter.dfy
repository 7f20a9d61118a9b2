/** Conditions over a message and its attestations (internal/securebus/filter.go). */
module Filter {
  import opened Wrappers
  import opened Policy

  datatype AttestationView = AttestationView(agentName: string, keyId: string, status: string)

  datatype MessageView = MessageView(authorKeyId: string, authorName: string, attestations: seq<AttestationView>)

  /** The status recorded last for each agent name. */
  function Latest(atts: seq<AttestationView>): map<string, string> {
    if atts == [] then map[] else
      var a := atts[|atts| - 1];
      Latest(atts[..|atts| - 1])[a.agentName := a.status]
  }

  function StatusIn(latest: map<string, string>, agent: string): string {
    if agent in latest then latest[agent] else ""
  }

  function WithStatus(latest: map<string, string>, status: string): set<string> {
    set n | n in latest && latest[n] == status
  }

  predicate Requirements(require: seq<Requirement>, latest: map<string, string>) {
    forall r | r in require :: StatusIn(latest, r.agent) == r.status
  }

  predicate StatusesMatch(cond: Condition, latest: map<string, string>) {
    if cond.anyDeny == Some(true) then
      WithStatus(latest, "deny") != {}
    else
      && (cond.anyDeny == Some(false) ==> WithStatus(latest, "deny") == {})
      && Requirements(cond.require, latest)
      && (cond.minOk > 0 ==> |WithStatus(latest, "ok")| >= cond.minOk)
  }

  /** Whether a message meets a condition. The mode of the condition plays no part. */
  predicate Matches(cond: Condition, view: MessageView) {
    && (cond.authors != [] ==> view.authorName in cond.authors)
    && StatusesMatch(cond, Latest(view.attestations))
  }

  method CollectLatest(atts: seq<AttestationView>) returns (latest: map<string, string>)
    ensures latest == Latest(atts)
  {
    latest := map[];
    for i := 0 to |atts|
      invariant latest == Latest(atts[..i])
    {
      assert atts[..i + 1][..i] == atts[..i];
      latest := latest[atts[i].agentName := atts[i].status];
    }
    assert atts[..|atts|] == atts;
  }

  /** The agents among those given whose status is the given one. */
  function WithStatusIn(latest: map<string, string>, names: set<string>, status: string): set<string> {
    set n | n in names && n in latest && latest[n] == status
  }

  lemma CountOneMore(latest: map<string, string>, names: set<string>, n: string, status: string)
    requires n in latest && n !in names
    ensures |WithStatusIn(latest, names + {n}, status)| ==
            |WithStatusIn(latest, names, status)| + (if latest[n] == status then 1 else 0)
  {
    assert WithStatusIn(latest, names + {n}, status) ==
           WithStatusIn(latest, names, status) + (if latest[n] == status then {n} else {});
  }

  lemma CountAll(latest: map<string, string>, status: string)
    ensures WithStatusIn(latest, latest.Keys, status) == WithStatus(latest, status)
  {
  }

  method CountStatuses(latest: map<string, string>) returns (okCount: nat, hasDeny: bool)
    ensures okCount == |WithStatus(latest, "ok")|
    ensures hasDeny <==> |WithStatus(latest, "deny")| > 0
  {
    okCount, hasDeny := 0, false;
    var todo := latest.Keys;
    ghost var seen := {};
    while todo != {}
      invariant todo <= latest.Keys && seen == latest.Keys - todo
      invariant okCount == |WithStatusIn(latest, seen, "ok")|
      invariant hasDeny <==> |WithStatusIn(latest, seen, "deny")| > 0
      decreases todo
    {
      var n :| n in todo;
      CountOneMore(latest, seen, n, "ok");
      CountOneMore(latest, seen, n, "deny");
      if latest[n] == "ok" {
        okCount := okCount + 1;
      }
      if latest[n] == "deny" {
        hasDeny := true;
      }
      todo, seen := todo - {n}, seen + {n};
    }
    assert seen == latest.Keys;
    CountAll(latest, "ok");
    CountAll(latest, "deny");
  }

  method MatchCondition(cond: Condition, view: MessageView) returns (r: bool)
    ensures r == Matches(cond, view)
  {
    var mode := cond.mode;
    if mode == "" {
      if |cond.require| > 0 || cond.minOk > 0 || cond.anyDeny != None {
        mode := "on_condition";
      } else {
        mode := "on_publish";
      }
    }
    if |cond.authors| > 0 && view.authorName !in cond.authors {
      return false;
    }
    var latest := CollectLatest(view.attestations);
    var okCount, hasDeny := CountStatuses(latest);
    if cond.anyDeny == Some(true) {
      return hasDeny;
    }
    if cond.anyDeny == Some(false) && hasDeny {
      return false;
    }
    for i := 0 to |cond.require|
      invariant forall j | 0 <= j < i :: StatusIn(latest, cond.require[j].agent) == cond.require[j].status
    {
      if StatusIn(latest, cond.require[i].agent) != cond.require[i].status {
        return false;
      }
    }
    if cond.minOk > 0 && okCount < cond.minOk {
      return false;
    }
    if mode == "on_publish" {
      return true;
    }
    return true;
  }

  /** ResolveCondition: a named condition, the ad-hoc one, or "on_publish". */
  function ResolveCondition(doc: Document, name: string, adHoc: Option<Condition>): Option<Condition> {
    if name != "" then
      if name in doc.conditions then Some(doc.conditions[name]) else None
    else if adHoc == None then Some(Condition([], [], 0, None, "on_publish"))
    else adHoc
  }

  // ---- Attestations by distinct agents: order does not matter ---------------------

  predicate DistinctNames(atts: seq<AttestationView>) {
    forall i, j | 0 <= i < j < |atts| :: atts[i].agentName != atts[j].agentName
  }

  /** With one attestation per name the map of latest statuses is just their graph. */
  lemma {:induction false} LatestIsGraph(atts: seq<AttestationView>)
    requires DistinctNames(atts)
    ensures forall i | 0 <= i < |atts| ::
      atts[i].agentName in Latest(atts) && Latest(atts)[atts[i].agentName] == atts[i].status
    ensures forall n | n in Latest(atts) :: exists i :: 0 <= i < |atts| && atts[i].agentName == n
  {
    if atts != [] {
      var init := atts[..|atts| - 1];
      LatestIsGraph(init);
      forall i | 0 <= i < |atts|
        ensures atts[i].agentName in Latest(atts) && Latest(atts)[atts[i].agentName] == atts[i].status
      {
        if i < |init| { assert init[i] == atts[i]; }
      }
      forall n | n in Latest(atts) ensures exists i :: 0 <= i < |atts| && atts[i].agentName == n {
        if n in Latest(init) {
          var i :| 0 <= i < |init| && init[i].agentName == n;
          assert atts[i].agentName == n;
        }
      }
    }
  }

  lemma LatestOfPermutation(a: seq<AttestationView>, b: seq<AttestationView>)
    requires DistinctNames(a) && DistinctNames(b) && multiset(a) == multiset(b)
    ensures Latest(a) == Latest(b)
  {
    LatestIncluded(a, b);
    LatestIncluded(b, a);
    assert Latest(a).Keys == Latest(b).Keys;
  }

  lemma LatestIncluded(a: seq<AttestationView>, b: seq<AttestationView>)
    requires DistinctNames(a) && DistinctNames(b) && multiset(a) == multiset(b)
    ensures forall n | n in Latest(a) :: n in Latest(b) && Latest(b)[n] == Latest(a)[n]
  {
    LatestIsGraph(a);
    LatestIsGraph(b);
    forall n | n in Latest(a) ensures n in Latest(b) && Latest(b)[n] == Latest(a)[n] {
      var i :| 0 <= i < |a| && a[i].agentName == n;
      assert a[i] in multiset(b);
      var j :| 0 <= j < |b| && b[j] == a[i];
    }
  }

  /** Matching does not depend on the order in which distinct agents attested. */
  lemma MatchIgnoresOrder(cond: Condition, v: MessageView, w: MessageView)
    requires v.authorName == w.authorName
    requires DistinctNames(v.attestations) && DistinctNames(w.attestations)
    requires multiset(v.attestations) == multiset(w.attestations)
    ensures Matches(cond, v) == Matches(cond, w)
  {
    LatestOfPermutation(v.attestations, w.attestations);
  }
}
