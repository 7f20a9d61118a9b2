/** The commit graph behind the git object (Exec in internal/gitstore/service.go). */
module Git {
  import opened Wrappers
  import opened Decimal
  import opened TextOrder

  datatype CommitObject = CommitObject(id: string, message: string, parents: seq<string>, tree: map<string, string>)

  datatype State = State(
    head: string,
    branches: map<string, string>,
    commits: map<string, CommitObject>,
    index: map<string, string>,
    files: map<string, string>,
    tags: map<string, string>)

  const Fresh := State("main", map[], map[], map[], map[], map[])

  /** The id the n-th commit gets: "c" and its number. */
  function CommitId(n: nat): (id: string)
    ensures id != ""
  {
    "c" + Show(n)
  }

  lemma CommitIdInjective(m: nat, n: nat)
    requires CommitId(m) == CommitId(n)
    ensures m == n
  {
    assert CommitId(m)[1..] == Show(m) && CommitId(n)[1..] == Show(n);
    ShowInjective(m, n);
  }

  /** Go map read: "" for a branch that does not exist. */
  function Tip(s: State, branch: string): string {
    if branch in s.branches then s.branches[branch] else ""
  }

  // ---- The commands ------------------------------------------------------------------

  datatype Command =
    | Add(path: string, content: string)
    | MakeCommit(message: string)
    | Branch(name: string)
    | Checkout(name: string)
    | Tag(name: string)

  function Added(s: State, path: string, content: string): State {
    if path == "" then s else s.(files := s.files[path := content], index := s.index[path := content])
  }

  function NewCommit(s: State, message: string): CommitObject {
    var parent := Tip(s, s.head);
    CommitObject(CommitId(|s.commits| + 1), message, if parent != "" then [parent] else [], s.index)
  }

  function Committed(s: State, message: string): State {
    if message == "" then s else
      var c := NewCommit(s, message);
      s.(commits := s.commits[c.id := c], branches := s.branches[s.head := c.id])
  }

  function Branched(s: State, name: string): State {
    if name == "" then s else s.(branches := s.branches[name := Tip(s, s.head)])
  }

  /** Where a checkout leaves the branch: where it was, or at the current tip if new. */
  function TipFor(s: State, name: string): string { if name in s.branches then s.branches[name] else Tip(s, s.head) }

  function CheckedOut(s: State, name: string): State {
    if name == "" then s else
      var tip := TipFor(s, name);
      var branches := if name in s.branches then s.branches else s.branches[name := tip];
      if tip in s.commits then State(name, branches, s.commits, s.commits[tip].tree, s.commits[tip].tree, s.tags)
      else State(name, branches, s.commits, s.index, s.files, s.tags)
  }

  function Tagged(s: State, name: string): State {
    if name == "" then s else s.(tags := s.tags[name := Tip(s, s.head)])
  }

  function Exec(s: State, c: Command): State {
    match c
    case Add(path, content) => Added(s, path, content)
    case MakeCommit(message) => Committed(s, message)
    case Branch(name) => Branched(s, name)
    case Checkout(name) => CheckedOut(s, name)
    case Tag(name) => Tagged(s, name)
  }

  function Run(s: State, cs: seq<Command>): State {
    if cs == [] then s else Exec(Run(s, cs[..|cs| - 1]), cs[|cs| - 1])
  }

  // ---- The invariant -------------------------------------------------------------------

  /** The number in a commit id; 0 for other strings. */
  ghost function Age(id: string): nat {
    if n: nat :| id == CommitId(n) then n else 0
  }

  lemma AgeOfCommit(n: nat)
    ensures Age(CommitId(n)) == n
  {
    var m: nat :| CommitId(n) == CommitId(m) && Age(CommitId(n)) == m;
    CommitIdInjective(n, m);
  }

  ghost predicate Numbered(commits: map<string, CommitObject>) {
    forall id | id in commits :: id == CommitId(Age(id)) && 1 <= Age(id) <= |commits| && commits[id].id == id
  }

  /** Parents exist and are strictly older. */
  ghost predicate OlderParents(commits: map<string, CommitObject>, age: string -> nat) {
    forall id | id in commits :: forall i | 0 <= i < |commits[id].parents| ::
      commits[id].parents[i] in commits && age(commits[id].parents[i]) < age(id)
  }

  ghost predicate PointsWell(refs: map<string, string>, commits: map<string, CommitObject>) {
    forall name | name in refs :: refs[name] == "" || refs[name] in commits
  }

  ghost predicate WellFormed(s: State) {
    Numbered(s.commits) && OlderParents(s.commits, Age) && PointsWell(s.branches, s.commits)
      && PointsWell(s.tags, s.commits)
  }

  lemma NextIdFresh(s: State)
    requires Numbered(s.commits)
    ensures CommitId(|s.commits| + 1) !in s.commits
    ensures Age(CommitId(|s.commits| + 1)) == |s.commits| + 1
  {
    AgeOfCommit(|s.commits| + 1);
  }

  /** A commit with the next id, whose parents exist, keeps numbers and ages in order. */
  lemma NewCommitFits(commits: map<string, CommitObject>, c: CommitObject)
    requires Numbered(commits) && OlderParents(commits, Age)
    requires c.id == CommitId(|commits| + 1) && c.id !in commits && Age(c.id) == |commits| + 1
    requires forall i | 0 <= i < |c.parents| :: c.parents[i] in commits
    ensures Numbered(commits[c.id := c]) && OlderParents(commits[c.id := c], Age)
  {
    assert |commits[c.id := c]| == |commits| + 1;
  }

  lemma CommitKeepsForm(s: State, message: string)
    requires WellFormed(s)
    ensures WellFormed(Committed(s, message))
  {
    if message != "" {
      NextIdFresh(s);
      NewCommitFits(s.commits, NewCommit(s, message));
    }
  }

  lemma OthersKeepCommits(s: State, c: Command)
    requires !c.MakeCommit?
    ensures Exec(s, c).commits == s.commits
  {
  }

  lemma OthersPointWell(s: State, c: Command)
    requires !c.MakeCommit? && PointsWell(s.branches, s.commits) && PointsWell(s.tags, s.commits)
    ensures PointsWell(Exec(s, c).branches, s.commits) && PointsWell(Exec(s, c).tags, s.commits)
  {
  }

  lemma ExecKeepsForm(s: State, c: Command)
    requires WellFormed(s)
    ensures WellFormed(Exec(s, c))
  {
    if c.MakeCommit? {
      CommitKeepsForm(s, c.message);
    } else {
      OthersKeepCommits(s, c);
      OthersPointWell(s, c);
    }
  }

  /** In every reachable repository parents are strictly older existing commits and
      every branch and tag names a commit or nothing. */
  lemma {:induction false} ReachableWellFormed(cs: seq<Command>)
    ensures WellFormed(Run(Fresh, cs))
  {
    if cs != [] {
      ReachableWellFormed(cs[..|cs| - 1]);
      ExecKeepsForm(Run(Fresh, cs[..|cs| - 1]), cs[|cs| - 1]);
    }
  }

  // ---- The log ---------------------------------------------------------------------------

  /** The commits from cur back along first parents. */
  ghost function LogFrom(commits: map<string, CommitObject>, age: string -> nat, cur: string): seq<CommitObject>
    requires OlderParents(commits, age) && (cur == "" || cur in commits)
    decreases age(cur)
  {
    if cur == "" then [] else
      var c := commits[cur];
      if c.parents == [] then [c] else [c] + LogFrom(commits, age, c.parents[0])
  }

  ghost function LogOf(s: State): seq<CommitObject>
    requires WellFormed(s)
  {
    LogFrom(s.commits, Age, Tip(s, s.head))
  }

  predicate Extends(a: map<string, CommitObject>, b: map<string, CommitObject>) {
    forall id | id in a :: id in b && b[id] == a[id]
  }

  /** History does not depend on what was committed later. */
  lemma {:induction false} LogStable(a: map<string, CommitObject>, b: map<string, CommitObject>, age: string -> nat,
      cur: string)
    requires OlderParents(a, age) && OlderParents(b, age) && Extends(a, b)
    requires cur == "" || cur in a
    ensures LogFrom(a, age, cur) == LogFrom(b, age, cur)
    decreases age(cur)
  {
    if cur != "" && a[cur].parents != [] { LogStable(a, b, age, a[cur].parents[0]); }
  }

  /** The log after a commit is the new commit followed by the old log. */
  lemma LogAfterCommit(s: State, message: string)
    requires WellFormed(s) && message != ""
    ensures WellFormed(Committed(s, message))
    ensures LogOf(Committed(s, message)) == [NewCommit(s, message)] + LogOf(s)
  {
    CommitKeepsForm(s, message);
    NextIdFresh(s);
    LogStable(s.commits, Committed(s, message).commits, Age, Tip(s, s.head));
  }

  // ---- Committed trees -------------------------------------------------------------------

  lemma ExecExtends(s: State, c: Command)
    requires WellFormed(s)
    ensures Extends(s.commits, Exec(s, c).commits)
  {
    if c.MakeCommit? {
      CommitExtends(s, c.message);
    } else {
      OthersKeepCommits(s, c);
    }
  }

  lemma CommitExtends(s: State, message: string)
    requires WellFormed(s)
    ensures Extends(s.commits, Committed(s, message).commits)
  {
    NextIdFresh(s);
  }

  /** No command ever changes a commit, its tree included. */
  lemma {:induction false} CommitsNeverChange(s: State, cs: seq<Command>)
    requires WellFormed(s)
    ensures WellFormed(Run(s, cs)) && Extends(s.commits, Run(s, cs).commits)
  {
    if cs != [] {
      var s1 := Run(s, cs[..|cs| - 1]);
      CommitsNeverChange(s, cs[..|cs| - 1]);
      ExecKeepsForm(s1, cs[|cs| - 1]);
      ExecExtends(s1, cs[|cs| - 1]);
    }
  }

  lemma NoEmptyId(commits: map<string, CommitObject>)
    requires Numbered(commits)
    ensures "" !in commits
  {
  }

  lemma TipIsCommit(s: State, name: string)
    requires WellFormed(s)
    ensures TipFor(s, name) != "" <==> TipFor(s, name) in s.commits
  {
    NoEmptyId(s.commits);
  }

  /** Checking out a branch that has a commit restores exactly that commit's tree into
      the index and the files; without a commit both stay as they are. */
  lemma CheckoutRestores(s: State, name: string)
    requires WellFormed(s) && name != ""
    ensures var s', tip := CheckedOut(s, name), TipFor(s, name);
            && s'.head == name && Tip(s', name) == tip && s'.commits == s.commits
            && (tip != "" ==> tip in s.commits && s'.index == s'.files == s.commits[tip].tree)
            && (tip == "" ==> s'.index == s.index && s'.files == s.files)
  {
    TipIsCommit(s, name);
  }

  /** Commit, do anything, come back: as long as the branch still names that commit,
      checking it out gives back the index as it was committed. */
  lemma CommitThenReturn(s: State, message: string, cs: seq<Command>)
    requires WellFormed(s) && message != "" && s.head != ""
    requires Tip(Run(Committed(s, message), cs), s.head) == NewCommit(s, message).id
    ensures var back := CheckedOut(Run(Committed(s, message), cs), s.head);
            back.index == s.index && back.files == s.index
  {
    var s1 := Committed(s, message);
    CommitKeepsForm(s, message);
    CommitsNeverChange(s1, cs);
    CheckoutRestores(Run(s1, cs), s.head);
  }

  /** The log loop: from a commit back along first parents; it ends because parents
      are strictly older. */
  method Walk(commits: map<string, CommitObject>, start: string,
      ghost age: string -> nat) returns (out: seq<CommitObject>)
    requires OlderParents(commits, age) && (start == "" || start in commits)
    ensures out == LogFrom(commits, age, start)
  {
    out := [];
    var cur := start;
    ghost var whole := LogFrom(commits, age, start);
    ghost var rest := whole;
    while cur != ""
      invariant cur == "" || cur in commits
      invariant rest == LogFrom(commits, age, cur) && out + rest == whole
      decreases age(cur)
    {
      var c := commits[cur];
      if |c.parents| == 0 {
        assert rest == [c];
        return out + [c];
      }
      Prepended(out, c, rest);
      rest := rest[1..];
      out, cur := out + [c], c.parents[0];
    }
  }

  lemma Prepended(out: seq<CommitObject>, c: CommitObject, rest: seq<CommitObject>)
    requires rest != [] && rest[0] == c
    ensures out + rest == (out + [c]) + rest[1..]
  {
  }

  // ---- The repository object -----------------------------------------------------------------

  lemma CheckoutKeepsForm(s: State, name: string)
    requires WellFormed(s)
    ensures WellFormed(CheckedOut(s, name))
  {
    ExecKeepsForm(s, Command.Checkout(name));
  }

  class Repo {
    var head: string
    var branches: map<string, string>
    var commits: map<string, CommitObject>
    var index: map<string, string>
    var files: map<string, string>
    var tags: map<string, string>

    function View(): State
      reads this
    {
      State(head, branches, commits, index, files, tags)
    }

    ghost predicate Valid()
      reads this
    {
      WellFormed(View())
    }

    constructor ()
      ensures Valid() && View() == Fresh
    {
      head, branches, commits, index, files, tags := "main", map[], map[], map[], map[], map[];
    }

    /** false stands for "path required". */
    method Add(path: string, content: string) returns (ok: bool)
      requires Valid()
      modifies this
      ensures Valid() && View() == Added(old(View()), path, content) && ok == (path != "")
    {
      if path == "" {
        return false;
      }
      files := files[path := content];
      index := index[path := content];
      return true;
    }

    method Commit(message: string) returns (r: Option<string>)
      requires Valid()
      modifies this
      ensures Valid() && View() == Committed(old(View()), message)
      ensures r == if message == "" then None else Some(CommitId(|old(commits)| + 1))
    {
      if message == "" {
        return None;
      }
      ghost var before := View();
      CommitKeepsForm(before, message);
      var id := CommitId(|commits| + 1);
      var parent := if head in branches then branches[head] else "";
      var parents: seq<string> := [];
      if parent != "" {
        parents := [parent];
      }
      var made := CommitObject(id, message, parents, index);
      assert made == NewCommit(before, message);
      commits := commits[id := made];
      branches := branches[head := id];
      assert View() == Committed(before, message);
      return Some(id);
    }

    method Log() returns (out: seq<CommitObject>)
      requires Valid()
      ensures out == LogOf(View())
    {
      out := Walk(commits, if head in branches then branches[head] else "", Age);
    }

    /** Without a name, the names of all branches in order; otherwise the commit the
        new branch names. */
    method Branch(name: string) returns (names: seq<string>, commit: string)
      requires Valid()
      modifies this
      ensures Valid() && View() == Branched(old(View()), name)
      ensures name == "" ==> Sorted(names) && Elements(names) == branches.Keys && commit == ""
      ensures name != "" ==> names == [name] && commit == Tip(View(), name) == Tip(old(View()), old(head))
    {
      if name == "" {
        return SortedKeys(branches.Keys), "";
      }
      branches := branches[name := if head in branches then branches[head] else ""];
      return [name], branches[name];
    }

    method Checkout(name: string) returns (ok: bool)
      requires Valid()
      modifies this
      ensures Valid() && View() == CheckedOut(old(View()), name) && ok == (name != "")
    {
      if name == "" {
        return false;
      }
      ghost var before := View();
      if name !in branches {
        branches := branches[name := if head in branches then branches[head] else ""];
      }
      assert branches[name] == TipFor(before, name);
      CheckoutKeepsForm(before, name);
      head := name;
      if branches[name] in commits {
        files := commits[branches[name]].tree;
        index := commits[branches[name]].tree;
      }
      return true;
    }

    /** Without a name, all tags; otherwise the tag that was set. */
    method Tag(name: string) returns (shown: map<string, string>)
      requires Valid()
      modifies this
      ensures Valid() && View() == Tagged(old(View()), name)
      ensures name == "" ==> shown == tags
      ensures name != "" ==> shown == map[name := Tip(old(View()), head)]
    {
      if name == "" {
        return tags;
      }
      tags := tags[name := if head in branches then branches[head] else ""];
      return map[name := tags[name]];
    }
  }
}
