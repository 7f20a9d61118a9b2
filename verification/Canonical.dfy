/** Canonical JSON: the text under every hash and signature of the secure bus.

    A Value is what normalize leaves of a decoded JSON document: objects are maps, so
    they have no key order, and a number, whole or not, is known by the text it is
    printed as. CanonicalJson is the text the server prints for it (keys sorted
    recursively, no white space, strings escaped as Go's HTML-escaping encoder
    does). The main result is that this text determines the value. */
module Canonical {
  import opened Decimal
  import opened TextOrder

  datatype Value =
    | Null
    | Bool(b: bool)
    | Num(token: Token)
    | Str(s: string)
    | List(items: seq<Value>)
    | Dict(entries: map<string, Value>)

  // ---- Strings ----------------------------------------------------------------

  function HexDigit(d: nat): (c: char)
    requires d < 16
  {
    "0123456789abcdef"[d]
  }

  /** o printed as {o:04x}, for o below 0x10000. */
  function Hex4(o: nat): (s: string)
    requires o < 0x10000
    ensures |s| == 4
  {
    [HexDigit(o / 0x1000), HexDigit(o / 0x100 % 16), HexDigit(o / 16 % 16), HexDigit(o % 16)]
  }

  function EscapeChar(ch: char): (s: string)
    ensures |s| > 0 && s[0] != '"'
  {
    var o := ch as int;
    if ch == '"' then "\\\""
    else if ch == '\\' then "\\\\"
    else if o == 0x08 then "\\b"
    else if o == 0x0c then "\\f"
    else if ch == '\n' then "\\n"
    else if ch == '\r' then "\\r"
    else if ch == '\t' then "\\t"
    else if ch == '&' then "\\u0026"
    else if ch == '<' then "\\u003c"
    else if ch == '>' then "\\u003e"
    else if o == 0x2028 then "\\u2028"
    else if o == 0x2029 then "\\u2029"
    else if o < 0x20 then "\\u" + Hex4(o)
    else [ch]
  }

  /** The concatenation of f(c) over the characters of s. */
  function FlatMap(f: char -> string, s: string): string {
    if s == "" then "" else f(s[0]) + FlatMap(f, s[1..])
  }

  lemma {:induction false} FlatMapSnoc(f: char -> string, s: string, ch: char)
    ensures FlatMap(f, s + [ch]) == FlatMap(f, s) + f(ch)
  {
    if s == "" {
      assert s + [ch] == [ch];
    } else {
      FlatMapSnoc(f, s[1..], ch);
      assert (s + [ch])[1..] == s[1..] + [ch];
    }
  }

  function Escape(s: string): string { FlatMap(EscapeChar, s) }

  /** The escaping loop: one pass over the characters, appending to the output. */
  method EscapeGoString(s: string) returns (out: string)
    ensures out == Escape(s)
  {
    out := "";
    var i := 0;
    while i < |s|
      invariant 0 <= i <= |s|
      invariant out == Escape(s[..i])
    {
      FlatMapSnoc(EscapeChar, s[..i], s[i]);
      assert s[..i + 1] == s[..i] + [s[i]];
      out := out + EscapeChar(s[i]);
      i := i + 1;
    }
    assert s[..i] == s;
  }

  // ---- The printer ------------------------------------------------------------

  function Quote(s: string): string { "\"" + Escape(s) + "\"" }

  function CanonicalJson(v: Value): string
    decreases v
  {
    match v
    case Null => "null"
    case Bool(b) => if b then "true" else "false"
    case Num(token) => token
    case Str(s) => Quote(s)
    case List(items) => "[" + ItemsText(v, items) + "]"
    case Dict(entries) => "{" + EntriesText(v, SortedKeys(entries.Keys)) + "}"
  }

  /** The items of a list, separated by commas. */
  function ItemsText(v: Value, items: seq<Value>): string
    requires forall i | 0 <= i < |items| :: items[i] < v
    decreases v, |items|
  {
    if items == [] then ""
    else if |items| == 1 then CanonicalJson(items[0])
    else CanonicalJson(items[0]) + "," + ItemsText(v, items[1..])
  }

  function EntryText(v: Value, k: string): string
    requires v.Dict? && k in v.entries
    decreases v, 0
  {
    Quote(k) + ":" + CanonicalJson(v.entries[k])
  }

  /** The entries of an object for the given keys, separated by commas. */
  function EntriesText(v: Value, keys: seq<string>): string
    requires v.Dict? && forall k | k in keys :: k in v.entries
    decreases v, |keys| + 1
  {
    if keys == [] then ""
    else if |keys| == 1 then EntryText(v, keys[0])
    else EntryText(v, keys[0]) + "," + EntriesText(v, keys[1..])
  }

  // ---- Reading the text back --------------------------------------------------

  function HexValue(c: char): int {
    if '0' <= c <= '9' then c as int - '0' as int else c as int - 'a' as int + 10
  }

  lemma HexDigitValue(d: nat)
    requires d < 16
    ensures HexValue(HexDigit(d)) == d
  {
    var table := "0123456789abcdef";
    assert table[0] == '0' && table[1] == '1' && table[2] == '2' && table[3] == '3' && table[4] == '4';
    assert table[5] == '5' && table[6] == '6' && table[7] == '7' && table[8] == '8' && table[9] == '9';
    assert table[10] == 'a' && table[11] == 'b' && table[12] == 'c' && table[13] == 'd';
  }

  /** The code point that the escape at the head of a text stands for. */
  function HeadCode(t: string): int {
    if t == "" then -1
    else if t[0] != '\\' || |t| < 2 then t[0] as int
    else if t[1] == 'u' && |t| >= 6 then
      HexValue(t[2]) * 0x1000 + HexValue(t[3]) * 0x100 + HexValue(t[4]) * 16 + HexValue(t[5])
    else if t[1] == 'b' then 0x08
    else if t[1] == 'f' then 0x0c
    else if t[1] == 'n' then '\n' as int
    else if t[1] == 'r' then '\r' as int
    else if t[1] == 't' then '\t' as int
    else t[1] as int
  }

  lemma HexSum(o: nat)
    requires o < 0x10000
    ensures o / 0x1000 * 0x1000 + o / 0x100 % 16 * 0x100 + o / 16 % 16 * 16 + o % 16 == o
  {
    assert o / 0x100 == o / 16 / 16 && o / 0x1000 == o / 0x100 / 16;
  }

  lemma Hex4Code(o: nat, p: string)
    requires o < 0x10000
    ensures HeadCode("\\u" + Hex4(o) + p) == o
  {
    var a, b, c, d := o / 0x1000, o / 0x100 % 16, o / 16 % 16, o % 16;
    HexDigitValue(a);
    HexDigitValue(b);
    HexDigitValue(c);
    HexDigitValue(d);
    HexSum(o);
    var t := "\\u" + Hex4(o) + p;
    assert t[0] == '\\' && t[1] == 'u';
    assert t[2] == HexDigit(a) && t[3] == HexDigit(b) && t[4] == HexDigit(c) && t[5] == HexDigit(d);
  }

  lemma EscapeCharCode(ch: char, p: string)
    ensures HeadCode(EscapeChar(ch) + p) == ch as int
  {
    var e, o := EscapeChar(ch), ch as int;
    var t := e + p;
    assert forall i | 0 <= i < |e| :: t[i] == e[i];
    if o < 0x20 && |e| == 6 {
      Hex4Code(o, p);
    }
  }

  /** A character code that a reader can undo, and that never starts with a quote. */
  ghost predicate Readable(f: char -> string, code: string -> int) {
    forall c: char, p: string :: code(f(c) + p) == c as int && f(c) != "" && f(c)[0] != '"'
  }

  /** Escaped strings closed by a quote can be told apart from any text behind them. */
  lemma {:induction false} FlatMapPrefix(f: char -> string, code: string -> int, x: string, y: string, s: string,
      t: string)
    requires Readable(f, code)
    requires FlatMap(f, x) + "\"" + s == FlatMap(f, y) + "\"" + t
    ensures x == y && s == t
    decreases |x|
  {
    var l, r := FlatMap(f, x) + "\"" + s, FlatMap(f, y) + "\"" + t;
    HeadOf(f, code, x, s);
    HeadOf(f, code, y, t);
    if x == "" {
      assert s == l[1..] && t == r[1..];
    } else {
      var c := f(x[0]);
      assert x[0] == y[0];
      var l', r' := FlatMap(f, x[1..]) + "\"" + s, FlatMap(f, y[1..]) + "\"" + t;
      assert l == c + l' && r == c + r';
      assert l' == l[|c|..] && r' == r[|c|..];
      FlatMapPrefix(f, code, x[1..], y[1..], s, t);
      assert x == [x[0]] + x[1..] && y == [y[0]] + y[1..];
    }
  }

  /** The first character of a closed, escaped string says whether it is empty,
      and if not what its first character is. */
  lemma HeadOf(f: char -> string, code: string -> int, x: string, s: string)
    requires Readable(f, code)
    ensures var l := FlatMap(f, x) + "\"" + s;
            && l != ""
            && (l[0] == '"' <==> x == "")
            && (x != "" ==> code(l) == x[0] as int)
  {
    if x != "" {
      var rest := FlatMap(f, x[1..]) + "\"" + s;
      assert FlatMap(f, x) + "\"" + s == f(x[0]) + rest;
    }
  }

  lemma QuotePrefix(x: string, y: string, s: string, t: string)
    requires Quote(x) + s == Quote(y) + t
    ensures x == y && s == t
  {
    assert Readable(EscapeChar, HeadCode) by {
      forall c: char, p: string ensures HeadCode(EscapeChar(c) + p) == c as int { EscapeCharCode(c, p); }
    }
    assert Escape(x) + "\"" + s == (Quote(x) + s)[1..];
    assert Escape(y) + "\"" + t == (Quote(y) + t)[1..];
    FlatMapPrefix(EscapeChar, HeadCode, x, y, s, t);
  }

  /** Text that may follow a value: nothing, or a delimiter. */
  predicate Delimited(s: string) {
    s == "" || s[0] in {',', ']', '}'}
  }

  datatype Kind = KNull | KTrue | KFalse | KNum | KStr | KList | KDict | KNone

  function KindOf(v: Value): Kind {
    match v
    case Null => KNull
    case Bool(b) => if b then KTrue else KFalse
    case Num(_) => KNum
    case Str(_) => KStr
    case List(_) => KList
    case Dict(_) => KDict
  }

  /** The kind of value a text starts with, read off its first character. */
  function KindOfHead(c: char): Kind {
    if c == 'n' then KNull
    else if c == 't' then KTrue
    else if c == 'f' then KFalse
    else if c == '-' || IsDigit(c) then KNum
    else if c == '"' then KStr
    else if c == '[' then KList
    else if c == '{' then KDict
    else KNone
  }

  lemma TextHead(v: Value)
    ensures CanonicalJson(v) != "" && KindOfHead(CanonicalJson(v)[0]) == KindOf(v)
  {
  }

  lemma Assoc(x: string, y: string, z: string)
    ensures (x + y) + z == x + (y + z)
  {
  }

  lemma SameText(x: string, s: string, t: string)
    requires x + s == x + t
    ensures s == t
  {
    assert s == (x + s)[|x|..] && t == (x + t)[|x|..];
  }

  /** What stands behind the first item of a list: a comma and the other items,
      or the closing bracket. */
  function AfterItem(v: Value, items: seq<Value>, s: string): (r: string)
    requires items != [] && forall i | 0 <= i < |items| :: items[i] < v
    ensures Delimited(r) && r != "" && (r[0] == ']' <==> |items| == 1)
  {
    if |items| == 1 then "]" + s else "," + (ItemsText(v, items[1..]) + ("]" + s))
  }

  lemma ItemsSplit(v: Value, items: seq<Value>, s: string)
    requires items != [] && forall i | 0 <= i < |items| :: items[i] < v
    ensures ItemsText(v, items) + ("]" + s) == CanonicalJson(items[0]) + AfterItem(v, items, s)
  {
    if |items| > 1 {
      var x, r := CanonicalJson(items[0]), ItemsText(v, items[1..]);
      Assoc(x + ",", r, "]" + s);
      Assoc(x, ",", r + ("]" + s));
    }
  }

  lemma ItemsHead(v: Value, items: seq<Value>, s: string)
    requires forall i | 0 <= i < |items| :: items[i] < v
    ensures var l := ItemsText(v, items) + ("]" + s); l != "" && (l[0] == ']' <==> items == [])
  {
    if items != [] {
      ItemsSplit(v, items, s);
      TextHead(items[0]);
    }
  }

  function AfterEntry(v: Value, keys: seq<string>, s: string): (r: string)
    requires v.Dict? && keys != [] && forall k | k in keys :: k in v.entries
    ensures Delimited(r) && r != "" && (r[0] == '}' <==> |keys| == 1)
  {
    if |keys| == 1 then "}" + s else "," + (EntriesText(v, keys[1..]) + ("}" + s))
  }

  /** What stands behind the first key of an object. */
  function AfterKey(v: Value, keys: seq<string>, s: string): string
    requires v.Dict? && keys != [] && forall k | k in keys :: k in v.entries
  {
    ":" + (CanonicalJson(v.entries[keys[0]]) + AfterEntry(v, keys, s))
  }

  lemma EntrySplit(v: Value, k: string, r: string)
    requires v.Dict? && k in v.entries
    ensures EntryText(v, k) + r == Quote(k) + (":" + (CanonicalJson(v.entries[k]) + r))
  {
    var q, x := Quote(k), CanonicalJson(v.entries[k]);
    Assoc(q + ":", x, r);
    Assoc(q, ":", x + r);
  }

  lemma EntriesSplit(v: Value, keys: seq<string>, s: string)
    requires v.Dict? && keys != [] && forall k | k in keys :: k in v.entries
    ensures EntriesText(v, keys) + ("}" + s) == Quote(keys[0]) + AfterKey(v, keys, s)
  {
    EntrySplit(v, keys[0], AfterEntry(v, keys, s));
    if |keys| > 1 {
      var x, r := EntryText(v, keys[0]), EntriesText(v, keys[1..]);
      Assoc(x + ",", r, "}" + s);
      Assoc(x, ",", r + ("}" + s));
    }
  }

  lemma EntriesHead(v: Value, keys: seq<string>, s: string)
    requires v.Dict? && forall k | k in keys :: k in v.entries
    ensures var l := EntriesText(v, keys) + ("}" + s); l != "" && (l[0] == '}' <==> keys == [])
  {
    if keys != [] {
      EntriesSplit(v, keys, s);
      assert (Quote(keys[0]) + AfterKey(v, keys, s))[0] == '"';
    }
  }

  /** Unique decodability: two values printed in front of delimited text are the
      same value in front of the same text. */
  lemma {:induction false} JsonPrefix(v: Value, w: Value, s: string, t: string)
    requires CanonicalJson(v) + s == CanonicalJson(w) + t
    requires Delimited(s) && Delimited(t)
    ensures v == w && s == t
    decreases v
  {
    var x, y := CanonicalJson(v), CanonicalJson(w);
    TextHead(v);
    TextHead(w);
    assert x[0] == (x + s)[0] == (y + t)[0] == y[0];
    assert KindOf(v) == KindOf(w);
    match v
    case Null => SameText(x, s, t);
    case Bool(_) => SameText(x, s, t);
    case Num(token) => TokenPrefix(token, w.token, s, t);
    case Str(a) => QuotePrefix(a, w.s, s, t);
    case List(_) => ListPrefix(v, w, s, t);
    case Dict(_) => DictPrefix(v, w, s, t);
  }

  lemma ListOpen(v: Value, s: string)
    requires v.List?
    ensures CanonicalJson(v) + s == "[" + (ItemsText(v, v.items) + ("]" + s))
  {
    var body := ItemsText(v, v.items);
    Assoc("[" + body, "]", s);
    Assoc("[", body, "]" + s);
  }

  lemma {:induction false} ListPrefix(v: Value, w: Value, s: string, t: string)
    requires v.List? && w.List? && CanonicalJson(v) + s == CanonicalJson(w) + t
    ensures v == w && s == t
    decreases v, |v.items| + 1
  {
    ListOpen(v, s);
    ListOpen(w, t);
    SameText("[", ItemsText(v, v.items) + ("]" + s), ItemsText(w, w.items) + ("]" + t));
    ItemsPrefix(v, w, v.items, w.items, s, t);
  }

  lemma {:induction false} ItemsPrefix(v: Value, w: Value, a: seq<Value>, b: seq<Value>, s: string, t: string)
    requires forall i | 0 <= i < |a| :: a[i] < v
    requires forall i | 0 <= i < |b| :: b[i] < w
    requires ItemsText(v, a) + ("]" + s) == ItemsText(w, b) + ("]" + t)
    ensures a == b && s == t
    decreases v, |a|
  {
    ItemsHead(v, a, s);
    ItemsHead(w, b, t);
    if a == [] {
      assert ItemsText(v, a) + ("]" + s) == "]" + s;
      assert ItemsText(w, b) + ("]" + t) == "]" + t;
      SameText("]", s, t);
    } else {
      ItemsSplit(v, a, s);
      ItemsSplit(w, b, t);
      var p, q := AfterItem(v, a, s), AfterItem(w, b, t);
      JsonPrefix(a[0], b[0], p, q);
      if |a| == 1 {
        SameText("]", s, t);
      } else {
        SameText(",", ItemsText(v, a[1..]) + ("]" + s), ItemsText(w, b[1..]) + ("]" + t));
        ItemsPrefix(v, w, a[1..], b[1..], s, t);
        assert a == [a[0]] + a[1..] && b == [b[0]] + b[1..];
      }
    }
  }

  lemma DictOpen(v: Value, s: string)
    requires v.Dict?
    ensures CanonicalJson(v) + s == "{" + (EntriesText(v, SortedKeys(v.entries.Keys)) + ("}" + s))
  {
    var body := EntriesText(v, SortedKeys(v.entries.Keys));
    Assoc("{" + body, "}", s);
    Assoc("{", body, "}" + s);
  }

  lemma SameMap(m: map<string, Value>, n: map<string, Value>, keys: seq<string>)
    requires Elements(keys) == m.Keys == n.Keys
    requires forall k | k in keys :: m[k] == n[k]
    ensures m == n
  {
    assert forall k | k in m :: k in Elements(keys);
  }

  lemma {:induction false} DictPrefix(v: Value, w: Value, s: string, t: string)
    requires v.Dict? && w.Dict? && CanonicalJson(v) + s == CanonicalJson(w) + t
    ensures v == w && s == t
    decreases v, |SortedKeys(v.entries.Keys)| + 1
  {
    var ks, ls := SortedKeys(v.entries.Keys), SortedKeys(w.entries.Keys);
    DictOpen(v, s);
    DictOpen(w, t);
    SameText("{", EntriesText(v, ks) + ("}" + s), EntriesText(w, ls) + ("}" + t));
    EntriesPrefix(v, w, ks, ls, s, t);
    SameMap(v.entries, w.entries, ks);
  }

  lemma {:induction false} EntriesPrefix(v: Value, w: Value, a: seq<string>, b: seq<string>, s: string, t: string)
    requires v.Dict? && forall k | k in a :: k in v.entries
    requires w.Dict? && forall k | k in b :: k in w.entries
    requires EntriesText(v, a) + ("}" + s) == EntriesText(w, b) + ("}" + t)
    ensures a == b && s == t
    ensures forall k | k in a :: v.entries[k] == w.entries[k]
    decreases v, |a|
  {
    EntriesHead(v, a, s);
    EntriesHead(w, b, t);
    if a == [] {
      assert EntriesText(v, a) + ("}" + s) == "}" + s;
      assert EntriesText(w, b) + ("}" + t) == "}" + t;
      SameText("}", s, t);
    } else {
      EntriesSplit(v, a, s);
      EntriesSplit(w, b, t);
      QuotePrefix(a[0], b[0], AfterKey(v, a, s), AfterKey(w, b, t));
      var p, q := AfterEntry(v, a, s), AfterEntry(w, b, t);
      SameText(":", CanonicalJson(v.entries[a[0]]) + p, CanonicalJson(w.entries[b[0]]) + q);
      JsonPrefix(v.entries[a[0]], w.entries[b[0]], p, q);
      if |a| == 1 {
        SameText("}", s, t);
      } else {
        SameText(",", EntriesText(v, a[1..]) + ("}" + s), EntriesText(w, b[1..]) + ("}" + t));
        EntriesPrefix(v, w, a[1..], b[1..], s, t);
        assert a == [a[0]] + a[1..] && b == [b[0]] + b[1..];
      }
    }
  }

  /** The canonical text determines the value. */
  lemma CanonicalJsonInjective(v: Value, w: Value)
    requires CanonicalJson(v) == CanonicalJson(w)
    ensures v == w
  {
    assert CanonicalJson(v) + "" == CanonicalJson(w) + "";
    JsonPrefix(v, w, "", "");
  }
}
