/** When the Python client signs the text the Go server checks: exactly when every
    number in the value survives the server's float64. */
module ServerAgreement {
  import opened Decimal
  import opened TextOrder
  import opened Canonical
  import opened PyCanonical
  import opened GoNumbers

  /** What the server reads in the client's value: whole numbers become float64, the
      sign of -0.0 stays, and go is how it prints the other floats, given their repr. */
  function Served(go: Token -> Token, v: PyValue): Value
    requires WellFormed(v)
  {
    match v
    case PyNone => Null
    case PyBool(b) => Bool(b)
    case PyInt(n) => Num(GoNumber(n))
    case PyWholeFloat(n) => Num(GoNumber(n))
    case PyNegativeZero => Num("-0")
    case PyFraction(repr) => Num(go(repr))
    case PyStr(s) => Str(s)
    case PyList(items) => List(seq(|items|, i requires 0 <= i < |items| => Served(go, items[i])))
    case PyTuple(items) => List(seq(|items|, i requires 0 <= i < |items| => Served(go, items[i])))
    case PyDict(fields) => Dict(map k | k in Elements(Keys(fields)) :: Served(go, fields[IndexOf(fields, k)].value))
  }

  /** Every number of the value reads the same on both sides; -0.0 never does. */
  predicate NumbersKept(go: Token -> Token, v: PyValue) {
    match v
    case PyInt(n) => Kept(n)
    case PyWholeFloat(n) => Kept(n)
    case PyNegativeZero => false
    case PyFraction(repr) => go(repr) == repr
    case PyList(items) => forall i | 0 <= i < |items| :: NumbersKept(go, items[i])
    case PyTuple(items) => forall i | 0 <= i < |items| :: NumbersKept(go, items[i])
    case PyDict(fields) => forall i | 0 <= i < |fields| :: NumbersKept(go, fields[i].value)
    case _ => true
  }

  lemma ServedAt(go: Token -> Token, v: PyValue, i: nat)
    requires v.PyDict? && WellFormed(v) && i < |v.fields|
    ensures v.fields[i].key in Served(go, v).entries
    ensures Served(go, v).entries[v.fields[i].key] == Served(go, v.fields[i].value)
  {
    assert Keys(v.fields)[i] == v.fields[i].key;
    assert IndexOf(v.fields, v.fields[i].key) == i;
  }

  lemma ItemsAt(go: Token -> Token, v: PyValue, items: seq<PyValue>)
    requires WellFormed(v) && (v == PyList(items) || v == PyTuple(items))
    ensures forall i | 0 <= i < |items| :: WellFormed(items[i])
    ensures Meaning(v).List? && |Meaning(v).items| == |items| && Served(go, v).List? && |Served(go, v).items| == |items|
    ensures forall i | 0 <= i < |items| :: Meaning(v).items[i] == Meaning(items[i])
    ensures forall i | 0 <= i < |items| :: Served(go, v).items[i] == Served(go, items[i])
    ensures NumbersKept(go, v) <==> forall i | 0 <= i < |items| :: NumbersKept(go, items[i])
  {
  }

  lemma SameLists(v: Value, w: Value)
    requires v.List? && w.List? && |v.items| == |w.items|
    ensures v == w <==> forall i | 0 <= i < |v.items| :: v.items[i] == w.items[i]
  {
    if forall i | 0 <= i < |v.items| :: v.items[i] == w.items[i] { assert v.items == w.items; }
  }

  lemma {:induction false} ServedItems(go: Token -> Token, v: PyValue, items: seq<PyValue>)
    requires WellFormed(v) && (v == PyList(items) || v == PyTuple(items))
    ensures Meaning(v) == Served(go, v) <==> NumbersKept(go, v)
    decreases v, 0
  {
    ItemsAt(go, v, items);
    var m, s := Meaning(v), Served(go, v);
    SameLists(m, s);
    forall i | 0 <= i < |items| ensures m.items[i] == s.items[i] <==> NumbersKept(go, items[i]) {
      ServedIsMeaning(go, items[i]);
    }
  }

  lemma {:induction false} ServedFields(go: Token -> Token, v: PyValue)
    requires v.PyDict? && WellFormed(v)
    ensures Meaning(v) == Served(go, v) <==> NumbersKept(go, v)
    decreases v, 0
  {
    forall i | 0 <= i < |v.fields|
      ensures Meaning(v.fields[i].value) == Served(go, v.fields[i].value) <==> NumbersKept(go, v.fields[i].value)
    {
      ServedIsMeaning(go, v.fields[i].value);
    }
    SameEntries(go, v);
  }

  /** Two dicts of the same fields are equal if and only if they are field by field. */
  lemma SameEntries(go: Token -> Token, v: PyValue)
    requires v.PyDict? && WellFormed(v)
    ensures Meaning(v) == Served(go, v) <==>
            forall i | 0 <= i < |v.fields| :: Meaning(v.fields[i].value) == Served(go, v.fields[i].value)
  {
    var m, s := Meaning(v).entries, Served(go, v).entries;
    forall i | 0 <= i < |v.fields|
      ensures var f := v.fields[i];
              f.key in m && f.key in s && m[f.key] == Meaning(f.value) && s[f.key] == Served(go, f.value)
    {
      MeaningAt(v, i);
      ServedAt(go, v, i);
    }
    MeaningKeys(v);
    ServedKeys(go, v);
    SameMaps(Keys(v.fields), m, s);
    assert forall i | 0 <= i < |v.fields| :: Keys(v.fields)[i] == v.fields[i].key;
  }

  lemma ServedKeys(go: Token -> Token, v: PyValue)
    requires v.PyDict? && WellFormed(v)
    ensures Served(go, v).entries.Keys == Elements(Keys(v.fields))
  {
  }

  lemma SameMaps(keys: seq<string>, m: map<string, Value>, s: map<string, Value>)
    requires m.Keys == Elements(keys) == s.Keys
    ensures forall i | 0 <= i < |keys| :: keys[i] in m && keys[i] in s
    ensures m == s <==> forall i | 0 <= i < |keys| :: m[keys[i]] == s[keys[i]]
  {
    assert forall i | 0 <= i < |keys| :: keys[i] in Elements(keys);
    if forall i | 0 <= i < |keys| :: m[keys[i]] == s[keys[i]] {
      forall k | k in m ensures m[k] == s[k] {
        var i :| 0 <= i < |keys| && keys[i] == k;
      }
    }
  }

  lemma {:induction false} ServedIsMeaning(go: Token -> Token, v: PyValue)
    requires WellFormed(v)
    ensures Meaning(v) == Served(go, v) <==> NumbersKept(go, v)
    decreases v
  {
    match v
    case PyInt(n) => NumbersAgreeExactly(n);
    case PyWholeFloat(n) => NumbersAgreeExactly(n);
    case PyNegativeZero => assert PyNumber(0)[0] != '-';
    case PyList(items) => ServedItems(go, v, items);
    case PyTuple(items) => ServedItems(go, v, items);
    case PyDict(_) => ServedFields(go, v);
    case _ =>
  }

  /** The client signs the text the server checks if and only if every number in the
      value is kept: whole numbers that are the shortest decimal of their float64 and
      below 10^21 (all up to 2^53 are), no -0.0, and fractions both print alike. */
  lemma AgreementExactly(go: Token -> Token, v: PyValue)
    requires WellFormed(v)
    ensures CanonicalText(v) == CanonicalJson(Served(go, v)) <==> NumbersKept(go, v)
  {
    Agreement(v);
    ServedIsMeaning(go, v);
    if CanonicalText(v) == CanonicalJson(Served(go, v)) {
      CanonicalJsonInjective(Meaning(v), Served(go, v));
    }
  }
}
