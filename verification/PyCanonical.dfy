/** The Python client's canonical JSON: _normalize, then _encode.

    A Python dict keeps insertion order, so it is a sequence of fields here.
    Meaning forgets that order, the difference between lists and tuples and the
    difference between 3 and 3.0. The main results are that the client prints the
    canonical text of the meaning, and hence that two client values print alike if
    and only if they mean the same. */
module PyCanonical {
  import opened Decimal
  import opened TextOrder
  import opened Canonical

  datatype Field<T> = Field(key: string, value: T)

  datatype PyValue =
    | PyNone
    | PyBool(b: bool)
    | PyInt(n: int)
    | PyWholeFloat(n: int)  // a float for which is_integer() holds, but for the next
    | PyNegativeZero        // -0.0
    | PyFraction(repr: Token)  // any other finite float, by its repr
    | PyStr(s: string)
    | PyList(items: seq<PyValue>)
    | PyTuple(items: seq<PyValue>)
    | PyDict(fields: seq<Field<PyValue>>)

  /** What _normalize returns: no tuples, no whole floats. */
  datatype Normal =
    | NNone
    | NBool(b: bool)
    | NInt(n: int)
    | NFloat(repr: Token)
    | NStr(s: string)
    | NList(items: seq<Normal>)
    | NDict(fields: seq<Field<Normal>>)

  predicate DistinctKeys<T>(fs: seq<Field<T>>) {
    forall i, j | 0 <= i < j < |fs| :: fs[i].key != fs[j].key
  }

  /** No dict holds a key twice: true of every Python value. */
  predicate WellFormed(v: PyValue) {
    match v
    case PyList(items) => forall i | 0 <= i < |items| :: WellFormed(items[i])
    case PyTuple(items) => forall i | 0 <= i < |items| :: WellFormed(items[i])
    case PyDict(fields) => DistinctKeys(fields) && forall i | 0 <= i < |fields| :: WellFormed(fields[i].value)
    case _ => true
  }

  function Keys<T>(fs: seq<Field<T>>): (ks: seq<string>)
    ensures |ks| == |fs| && forall i | 0 <= i < |fs| :: ks[i] == fs[i].key
  {
    seq(|fs|, i requires 0 <= i < |fs| => fs[i].key)
  }

  /** v[k]: where the dict holds the key. */
  function IndexOf<T>(fs: seq<Field<T>>, k: string): (i: nat)
    requires k in Keys(fs)
    ensures i < |fs| && fs[i].key == k
  {
    assert fs != [];
    if fs[0].key == k then 0 else
      assert k in Keys(fs[1..]) by { var j :| 0 <= j < |fs| && Keys(fs)[j] == k; assert Keys(fs[1..])[j - 1] == k; }
      1 + IndexOf(fs[1..], k)
  }

  function Meaning(v: PyValue): Value
    requires WellFormed(v)
  {
    match v
    case PyNone => Null
    case PyBool(b) => Bool(b)
    case PyInt(n) => Num(Show(n))
    case PyWholeFloat(n) => Num(Show(n))
    case PyNegativeZero => Num(Show(0))
    case PyFraction(repr) => Num(repr)
    case PyStr(s) => Str(s)
    case PyList(items) => List(seq(|items|, i requires 0 <= i < |items| => Meaning(items[i])))
    case PyTuple(items) => List(seq(|items|, i requires 0 <= i < |items| => Meaning(items[i])))
    case PyDict(fields) => Dict(map k | k in Elements(Keys(fields)) :: Meaning(fields[IndexOf(fields, k)].value))
  }

  // ---- sorted(v.keys()) ---------------------------------------------------------

  function Insert<T>(f: Field<T>, fs: seq<Field<T>>): seq<Field<T>> {
    if fs == [] || Less(f.key, fs[0].key) then [f] + fs else [fs[0]] + Insert(f, fs[1..])
  }

  function SortFields<T>(fs: seq<Field<T>>): seq<Field<T>> {
    if fs == [] then [] else Insert(fs[0], SortFields(fs[1..]))
  }

  lemma {:induction false} InsertKeeps<T>(f: Field<T>, fs: seq<Field<T>>)
    ensures multiset(Insert(f, fs)) == multiset{f} + multiset(fs)
  {
    if fs != [] && !Less(f.key, fs[0].key) {
      InsertKeeps(f, fs[1..]);
      assert fs == [fs[0]] + fs[1..];
    }
  }

  lemma {:induction false} SortKeeps<T>(fs: seq<Field<T>>)
    ensures multiset(SortFields(fs)) == multiset(fs)
  {
    if fs != [] {
      SortKeeps(fs[1..]);
      InsertKeeps(fs[0], SortFields(fs[1..]));
      assert fs == [fs[0]] + fs[1..];
    }
  }

  lemma {:induction false} InsertSorts<T>(f: Field<T>, fs: seq<Field<T>>)
    requires Sorted(Keys(fs)) && forall i | 0 <= i < |fs| :: fs[i].key != f.key
    ensures Sorted(Keys(Insert(f, fs)))
  {
    if fs == [] {
    } else if Less(f.key, fs[0].key) {
      forall i | 0 <= i < |fs| ensures Less(f.key, fs[i].key) {
        if i > 0 { assert Less(Keys(fs)[0], Keys(fs)[i]); Transitive(f.key, fs[0].key, fs[i].key); }
      }
      assert Insert(f, fs) == [f] + fs;
    } else {
      var rest := Insert(f, fs[1..]);
      assert Sorted(Keys(fs[1..])) by {
        forall i, j | 0 <= i < j < |fs[1..]| ensures Less(Keys(fs[1..])[i], Keys(fs[1..])[j]) {
          assert Less(Keys(fs)[i + 1], Keys(fs)[j + 1]);
        }
      }
      InsertSorts(f, fs[1..]);
      InsertKeeps(f, fs[1..]);
      Connected(f.key, fs[0].key);
      forall i | 0 <= i < |rest| ensures Less(fs[0].key, rest[i].key) {
        assert rest[i] in multiset(rest);
        if rest[i] != f {
          assert rest[i] in fs[1..];
          var j :| 0 <= j < |fs[1..]| && fs[1..][j] == rest[i];
          assert Less(Keys(fs)[0], Keys(fs)[j + 1]);
        }
      }
      PrependSorted(fs[0], rest);
    }
  }

  lemma PrependSorted<T>(f: Field<T>, rest: seq<Field<T>>)
    requires Sorted(Keys(rest)) && forall i | 0 <= i < |rest| :: Less(f.key, rest[i].key)
    ensures Sorted(Keys([f] + rest))
  {
    var ks := Keys([f] + rest);
    forall i, j | 0 <= i < j < |ks| ensures Less(ks[i], ks[j]) {
      if i > 0 { assert Less(Keys(rest)[i - 1], Keys(rest)[j - 1]); }
    }
  }

  lemma {:induction false} SortSorts<T>(fs: seq<Field<T>>)
    requires DistinctKeys(fs)
    ensures Sorted(Keys(SortFields(fs)))
  {
    if fs != [] {
      var rest := SortFields(fs[1..]);
      SortSorts(fs[1..]);
      SortKeeps(fs[1..]);
      forall i | 0 <= i < |rest| ensures rest[i].key != fs[0].key {
        assert rest[i] in multiset(rest);
        assert rest[i] in fs[1..];
      }
      InsertSorts(fs[0], rest);
    }
  }

  // ---- _normalize and _encode ---------------------------------------------------

  function Normalize(v: PyValue): Normal
    decreases v, 1
  {
    match v
    case PyNone => NNone
    case PyBool(b) => NBool(b)
    case PyInt(n) => NInt(n)
    case PyWholeFloat(n) => NInt(n)
    case PyNegativeZero => NInt(0)
    case PyFraction(repr) => NFloat(repr)
    case PyStr(s) => NStr(s)
    case PyList(items) => NList(seq(|items|, i requires 0 <= i < |items| => Normalize(items[i])))
    case PyTuple(items) => NList(seq(|items|, i requires 0 <= i < |items| => Normalize(items[i])))
    case PyDict(fields) =>
      NDict(SortFields(NormalFields(v)))
  }

  function NormalFields(v: PyValue): (fs: seq<Field<Normal>>)
    requires v.PyDict?
    ensures |fs| == |v.fields|
    ensures forall i | 0 <= i < |fs| :: fs[i] == Field(v.fields[i].key, Normalize(v.fields[i].value))
    decreases v, 0
  {
    seq(|v.fields|, i requires 0 <= i < |v.fields| => Field(v.fields[i].key, Normalize(v.fields[i].value)))
  }

  function Join(parts: seq<string>): string {
    if parts == [] then "" else if |parts| == 1 then parts[0] else parts[0] + "," + Join(parts[1..])
  }

  /** _encode visits a dict's keys in sorted order once more. */
  function Encode(v: Normal): string
    decreases v, 1
  {
    match v
    case NNone => "null"
    case NBool(b) => if b then "true" else "false"
    case NInt(n) => Show(n)
    case NFloat(repr) => repr
    case NStr(s) => Quote(s)
    case NList(items) => "[" + Join(seq(|items|, i requires 0 <= i < |items| => Encode(items[i]))) + "]"
    case NDict(fields) =>
      "{" + Join(Parts(SortFields(EncodedFields(v)))) + "}"
  }

  /** The fields of a dict with each value already encoded; sorting moves whole
      fields, so it may come after. */
  function EncodedFields(v: Normal): (fs: seq<Field<string>>)
    requires v.NDict?
    ensures |fs| == |v.fields|
    ensures forall i | 0 <= i < |fs| :: fs[i] == Field(v.fields[i].key, Encode(v.fields[i].value))
    decreases v, 0
  {
    seq(|v.fields|, i requires 0 <= i < |v.fields| => Field(v.fields[i].key, Encode(v.fields[i].value)))
  }

  function Parts(fs: seq<Field<string>>): seq<string> {
    seq(|fs|, i requires 0 <= i < |fs| => Quote(fs[i].key) + ":" + fs[i].value)
  }

  function CanonicalText(v: PyValue): string { Encode(Normalize(v)) }

  // ---- The client prints what the server prints -----------------------------------

  lemma {:induction false} JoinItems(v: Value, items: seq<Value>, parts: seq<string>)
    requires forall i | 0 <= i < |items| :: items[i] < v
    requires |parts| == |items| && forall i | 0 <= i < |items| :: parts[i] == CanonicalJson(items[i])
    ensures Join(parts) == ItemsText(v, items)
    decreases |items|
  {
    if |items| > 1 { JoinItems(v, items[1..], parts[1..]); }
  }

  lemma {:induction false} JoinEntries(v: Value, keys: seq<string>, parts: seq<string>)
    requires v.Dict? && forall k | k in keys :: k in v.entries
    requires |parts| == |keys| && forall i | 0 <= i < |keys| :: parts[i] == EntryText(v, keys[i])
    ensures Join(parts) == EntriesText(v, keys)
    decreases |keys|
  {
    if |keys| > 1 { JoinEntries(v, keys[1..], parts[1..]); }
  }

  lemma {:induction false} Agreement(v: PyValue)
    requires WellFormed(v)
    ensures CanonicalText(v) == CanonicalJson(Meaning(v))
  {
    match v
    case PyList(items) => ListAgreement(v, items);
    case PyTuple(items) => ListAgreement(v, items);
    case PyDict(fields) => DictAgreement(v);
    case _ =>
  }

  lemma {:induction false} ListAgreement(v: PyValue, items: seq<PyValue>)
    requires WellFormed(v) && (v == PyList(items) || v == PyTuple(items))
    ensures CanonicalText(v) == CanonicalJson(Meaning(v))
    decreases v, 0
  {
    var m := Meaning(v);
    var parts := seq(|items|, i requires 0 <= i < |items| => Encode(Normalize(v).items[i]));
    forall i | 0 <= i < |items| ensures parts[i] == CanonicalJson(m.items[i]) { Agreement(items[i]); }
    JoinItems(m, m.items, parts);
  }

  lemma SortedDistinct<T>(fs: seq<Field<T>>)
    requires Sorted(Keys(fs))
    ensures DistinctKeys(fs)
  {
    forall i, j | 0 <= i < j < |fs| ensures fs[i].key != fs[j].key {
      assert Less(Keys(fs)[i], Keys(fs)[j]);
      Irreflexive(fs[i].key);
    }
  }

  lemma SameElements<T>(a: seq<Field<T>>, b: seq<Field<T>>, f: Field<T>)
    requires multiset(a) == multiset(b) && f in a
    ensures f in b
  {
    assert f in multiset(a);
  }

  lemma KeysOfPermutation<T>(a: seq<Field<T>>, b: seq<Field<T>>)
    requires multiset(a) == multiset(b)
    ensures Elements(Keys(a)) == Elements(Keys(b))
  {
    KeysIncluded(a, b);
    KeysIncluded(b, a);
  }

  lemma KeysIncluded<T>(a: seq<Field<T>>, b: seq<Field<T>>)
    requires multiset(a) == multiset(b)
    ensures Elements(Keys(a)) <= Elements(Keys(b))
  {
    forall k | k in Elements(Keys(a)) ensures k in Elements(Keys(b)) {
      var i :| 0 <= i < |a| && a[i].key == k;
      SameElements(a, b, a[i]);
      var j :| 0 <= j < |b| && b[j] == a[i];
      assert Keys(b)[j] == k;
    }
  }

  /** Every field pairs a key of the object m with the server's text for its value. */
  predicate Prints(fs: seq<Field<string>>, m: Value)
    requires m.Dict?
  {
    forall i | 0 <= i < |fs| :: fs[i].key in m.entries && fs[i].value == CanonicalJson(m.entries[fs[i].key])
  }

  lemma SortPrints(fs: seq<Field<string>>, m: Value)
    requires m.Dict? && Prints(fs, m)
    ensures Prints(SortFields(fs), m)
  {
    var sorted := SortFields(fs);
    SortKeeps(fs);
    forall i | 0 <= i < |sorted|
      ensures sorted[i].key in m.entries && sorted[i].value == CanonicalJson(m.entries[sorted[i].key])
    {
      SameElements(sorted, fs, sorted[i]);
    }
  }

  /** Sorted fields that print the whole object print it as the server does. */
  lemma PartsAgree(sorted: seq<Field<string>>, m: Value)
    requires m.Dict? && Prints(sorted, m) && Sorted(Keys(sorted)) && Elements(Keys(sorted)) == m.entries.Keys
    ensures "{" + Join(Parts(sorted)) + "}" == CanonicalJson(m)
  {
    SortedUnique(Keys(sorted), SortedKeys(m.entries.Keys));
    JoinEntries(m, Keys(sorted), Parts(sorted));
  }

  lemma MeaningAt(v: PyValue, j: nat)
    requires WellFormed(v) && v.PyDict? && j < |v.fields|
    ensures v.fields[j].key in Meaning(v).entries
    ensures Meaning(v).entries[v.fields[j].key] == Meaning(v.fields[j].value)
  {
    assert Keys(v.fields)[j] == v.fields[j].key;
    assert IndexOf(v.fields, v.fields[j].key) == j;
  }

  /** Encoding the values of the normalised fields gives the server's texts. */
  lemma {:induction false} FieldsPrint(v: PyValue)
    requires WellFormed(v) && v.PyDict?
    ensures Prints(EncodedFields(Normalize(v)), Meaning(v))
    decreases v, 0
  {
    var nf, sf := NormalFields(v), Normalize(v).fields;
    var parts, m := EncodedFields(Normalize(v)), Meaning(v);
    SortKeeps(nf);
    forall i | 0 <= i < |parts|
      ensures parts[i].key in m.entries && parts[i].value == CanonicalJson(m.entries[parts[i].key])
    {
      SameElements(sf, nf, sf[i]);
      var j :| 0 <= j < |nf| && nf[j] == sf[i];
      Agreement(v.fields[j].value);
      MeaningAt(v, j);
    }
  }

  /** Both passes keep the keys, and leave them distinct and in order. */
  lemma KeysKept(v: PyValue)
    requires WellFormed(v) && v.PyDict?
    ensures var sorted := SortFields(EncodedFields(Normalize(v)));
            Sorted(Keys(sorted)) && Elements(Keys(sorted)) == Meaning(v).entries.Keys
  {
    var nf, sf := NormalFields(v), Normalize(v).fields;
    var parts := EncodedFields(Normalize(v));
    SortKeeps(nf);
    SortSorts(nf);
    KeysOfPermutation(sf, nf);
    assert Keys(parts) == Keys(sf) && Keys(nf) == Keys(v.fields);
    SortedDistinct(parts);
    SortKeeps(parts);
    SortSorts(parts);
    KeysOfPermutation(SortFields(parts), parts);
    MeaningKeys(v);
  }

  lemma MeaningKeys(v: PyValue)
    requires WellFormed(v) && v.PyDict?
    ensures Elements(Keys(v.fields)) == Meaning(v).entries.Keys
  {
  }

  lemma DictText(v: PyValue)
    requires v.PyDict?
    ensures Normalize(v).NDict?
    ensures CanonicalText(v) == "{" + Join(Parts(SortFields(EncodedFields(Normalize(v))))) + "}"
  {
  }

  lemma PrintedFieldsAgree(fs: seq<Field<string>>, m: Value)
    requires m.Dict? && Prints(fs, m) && Sorted(Keys(SortFields(fs)))
      && Elements(Keys(SortFields(fs))) == m.entries.Keys
    ensures "{" + Join(Parts(SortFields(fs))) + "}" == CanonicalJson(m)
  {
    SortPrints(fs, m);
    PartsAgree(SortFields(fs), m);
  }

  lemma {:induction false} DictAgreement(v: PyValue)
    requires WellFormed(v) && v.PyDict?
    ensures CanonicalText(v) == CanonicalJson(Meaning(v))
    decreases v, 1
  {
    FieldsPrint(v);
    KeysKept(v);
    DictText(v);
    PrintedFieldsAgree(EncodedFields(Normalize(v)), Meaning(v));
  }

  /** Two client values print alike exactly when they mean the same: the text
      ignores insertion order and nothing else. */
  lemma SameTextIffSameMeaning(v: PyValue, w: PyValue)
    requires WellFormed(v) && WellFormed(w)
    ensures CanonicalText(v) == CanonicalText(w) <==> Meaning(v) == Meaning(w)
  {
    Agreement(v);
    Agreement(w);
    if CanonicalText(v) == CanonicalText(w) {
      CanonicalJsonInjective(Meaning(v), Meaning(w));
    }
  }

  /** Inserting the same fields in another order changes nothing in the text. */
  lemma InsertionOrderIgnored(a: seq<Field<PyValue>>, b: seq<Field<PyValue>>)
    requires WellFormed(PyDict(a)) && WellFormed(PyDict(b)) && multiset(a) == multiset(b)
    ensures CanonicalText(PyDict(a)) == CanonicalText(PyDict(b))
  {
    var v, w := PyDict(a), PyDict(b);
    var m, n := Meaning(v).entries, Meaning(w).entries;
    MeaningKeys(v);
    MeaningKeys(w);
    KeysOfPermutation(a, b);
    forall k | k in m ensures m[k] == n[k] {
      var i :| 0 <= i < |a| && a[i].key == k;
      SameElements(a, b, a[i]);
      var j :| 0 <= j < |b| && b[j] == a[i];
      MeaningAt(v, i);
      MeaningAt(w, j);
    }
    assert m == n;
    SameTextIffSameMeaning(v, w);
  }
}
