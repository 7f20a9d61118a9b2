/** Lexicographic order of strings by code point. Python's sorted() uses it, and
    Go's sort.Strings, which compares UTF-8 bytes, agrees with it. */
module TextOrder {

  predicate Less(a: string, b: string) {
    if b == "" then false
    else if a == "" then true
    else if a[0] != b[0] then a[0] < b[0]
    else Less(a[1..], b[1..])
  }

  lemma {:induction false} Irreflexive(a: string)
    ensures !Less(a, a)
  {
    if a != "" { Irreflexive(a[1..]); }
  }

  lemma {:induction false} Transitive(a: string, b: string, c: string)
    requires Less(a, b) && Less(b, c)
    ensures Less(a, c)
  {
    if a != "" && a[0] == b[0] == c[0] { Transitive(a[1..], b[1..], c[1..]); }
  }

  lemma {:induction false} Connected(a: string, b: string)
    ensures a == b || Less(a, b) || Less(b, a)
  {
    if a != "" && b != "" && a[0] == b[0] {
      Connected(a[1..], b[1..]);
      assert a == [a[0]] + a[1..] && b == [b[0]] + b[1..];
    }
  }

  predicate Below(k: string, s: set<string>) {
    forall x | x in s :: x == k || Less(k, x)
  }

  lemma {:induction false} LeastExists(s: set<string>)
    requires s != {}
    ensures exists k :: k in s && Below(k, s)
  {
    var x :| x in s;
    if s == {x} {
      assert Below(x, s);
    } else {
      assert s == {x} + (s - {x});
      LeastExists(s - {x});
      var k :| k in s - {x} && Below(k, s - {x});
      Connected(k, x);
      if Less(k, x) {
        assert Below(k, s);
      } else {
        forall y | y in s ensures y == x || Less(x, y) {
          if y != x && y != k { Transitive(x, k, y); }
        }
        assert Below(x, s);
      }
    }
  }

  lemma LeastUnique(s: set<string>, j: string, k: string)
    requires j in s && k in s && Below(j, s) && Below(k, s)
    ensures j == k
  {
    if Less(j, k) && Less(k, j) {
      Transitive(j, k, j);
      Irreflexive(j);
    }
  }

  function Least(s: set<string>): (k: string)
    requires s != {}
    ensures k in s && Below(k, s)
  {
    LeastExists(s);
    assert forall i, j | i in s && j in s && Below(i, s) && Below(j, s) :: i == j by {
      forall i, j | i in s && j in s && Below(i, s) && Below(j, s) ensures i == j { LeastUnique(s, i, j); }
    }
    var k :| k in s && Below(k, s);
    k
  }

  predicate Sorted(ks: seq<string>) {
    forall i, j | 0 <= i < j < |ks| :: Less(ks[i], ks[j])
  }

  function Elements<T>(ks: seq<T>): set<T> { set k | k in ks }

  /** The members of a finite set, each once, in order: sort.Strings of a map's keys. */
  function SortedKeys(s: set<string>): (ks: seq<string>)
    ensures Sorted(ks)
    ensures Elements(ks) == s
  {
    if s == {} then [] else
      var k := Least(s);
      var rest := SortedKeys(s - {k});
      assert forall x :: x in rest <==> x in Elements(rest);
      [k] + rest
  }

  /** A set has one sorted enumeration. */
  lemma {:induction false} SortedUnique(a: seq<string>, b: seq<string>)
    requires Sorted(a) && Sorted(b) && Elements(a) == Elements(b)
    ensures a == b
  {
    assert b != [] ==> b[0] in Elements(a);
    if a != [] {
      assert a[0] in Elements(b);
      var i :| 0 <= i < |b| && b[i] == a[0];
      var j :| 0 <= j < |a| && a[j] == b[0];
      HeadsAgree(a, b, i, j);
      TailElements(a);
      TailElements(b);
      SortedUnique(a[1..], b[1..]);
      assert a == [a[0]] + a[1..] && b == [b[0]] + b[1..];
    }
  }

  lemma HeadsAgree(a: seq<string>, b: seq<string>, i: nat, j: nat)
    requires Sorted(a) && Sorted(b) && i < |b| && j < |a|
    requires b[i] == a[0] && a[j] == b[0]
    ensures a[0] == b[0]
  {
    if i > 0 && j > 0 {
      Transitive(a[0], a[j], a[0]);
      Irreflexive(a[0]);
    }
  }

  lemma TailElements(a: seq<string>)
    requires a != [] && Sorted(a)
    ensures Elements(a[1..]) == Elements(a) - {a[0]}
  {
    Irreflexive(a[0]);
    assert forall x :: x in a <==> x == a[0] || x in a[1..];
    assert a[0] !in a[1..];
  }
}
