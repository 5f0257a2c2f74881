/**
 * The JavaScript values the plugin receives from its servers and passes
 * around untyped (`any`): JSON values plus `undefined`, with the coercions
 * the code applies to them — truthiness, `||`, `??`, template-literal
 * display (`String(v)`), `Object.entries` and `JSON.stringify`.
 * Numbers are integers here; floating point is not modelled.
 * An object is its list of own members in enumeration order, keys distinct.
 */
module Js {
  import opened Wrappers
  import opened Text

  datatype Value =
    | Undefined
    | Null
    | Bool(b: bool)
    | Num(n: int)
    | Str(s: string)
    | Arr(items: seq<Value>)
    | Obj(members: seq<Member>)
  {
    /** `v == null` in JavaScript: reading a property of such a value throws a TypeError. */
    predicate Nullish() {
      Undefined? || Null?
    }
  }

  datatype Member = Member(key: string, val: Value)

  function Keys(ms: seq<Member>): (ks: seq<string>)
    ensures |ks| == |ms|
    ensures forall i :: 0 <= i < |ms| ==> ks[i] == ms[i].key
  {
    if |ms| == 0 then [] else [ms[0].key] + Keys(ms[1..])
  }

  predicate DistinctKeys(ms: seq<Member>) {
    forall i, j :: 0 <= i < j < |ms| ==> ms[i].key != ms[j].key
  }

  /** The value stored under `key`, or `undefined`. */
  function Lookup(ms: seq<Member>, key: string): Value {
    if |ms| == 0 then Undefined
    else if ms[0].key == key then ms[0].val
    else Lookup(ms[1..], key)
  }

  /** The first member under `key` is the one found. */
  lemma {:induction false} LookupFirst(ms: seq<Member>, key: string, i: nat)
    requires i < |ms| && ms[i].key == key
    requires forall j | 0 <= j < i :: ms[j].key != key
    ensures Lookup(ms, key) == ms[i].val
    decreases i
  {
    if i > 0 {
      LookupFirst(ms[1..], key, i - 1);
    }
  }

  /** `o[key] = val`: an existing key keeps its place, a new key goes last. */
  function Put(ms: seq<Member>, key: string, val: Value): seq<Member> {
    if |ms| == 0 then [Member(key, val)]
    else if ms[0].key == key then [Member(key, val)] + ms[1..]
    else [ms[0]] + Put(ms[1..], key, val)
  }

  predicate HasKey(ms: seq<Member>, key: string) {
    exists i :: 0 <= i < |ms| && ms[i].key == key
  }

  lemma {:induction false} LookupPut(ms: seq<Member>, key: string, val: Value, other: string)
    ensures Lookup(Put(ms, key, val), key) == val
    ensures other != key ==> Lookup(Put(ms, key, val), other) == Lookup(ms, other)
    decreases |ms|
  {
    if |ms| > 0 && ms[0].key != key {
      LookupPut(ms[1..], key, val, other);
    }
  }

  /** Assignment replaces the value in place when the key exists, and appends it otherwise. */
  lemma {:induction false} PutKeys(ms: seq<Member>, key: string, val: Value)
    ensures Keys(Put(ms, key, val)) == if HasKey(ms, key) then Keys(ms) else Keys(ms) + [key]
    decreases |ms|
  {
    if |ms| > 0 && ms[0].key != key {
      PutKeys(ms[1..], key, val);
      if HasKey(ms, key) {
        var i :| 0 <= i < |ms| && ms[i].key == key;
        assert ms[1..][i - 1].key == key;
      }
      if HasKey(ms[1..], key) {
        var i :| 0 <= i < |ms[1..]| && ms[1..][i].key == key;
        assert ms[i + 1].key == key;
      }
    } else if |ms| > 0 {
      assert HasKey(ms, key) by { assert ms[0].key == key; }
    }
  }

  lemma {:induction false} PutKeepsDistinct(ms: seq<Member>, key: string, val: Value)
    requires DistinctKeys(ms)
    ensures DistinctKeys(Put(ms, key, val))
  {
    var r := Put(ms, key, val);
    PutKeys(ms, key, val);
    var ks := Keys(r);
    forall i, j | 0 <= i < j < |r| ensures r[i].key != r[j].key {
      assert ks[i] == r[i].key && ks[j] == r[j].key;
      if !HasKey(ms, key) && j == |ms| {
        assert ks[i] == Keys(ms)[i] == ms[i].key;
      } else {
        assert ks[i] == ms[i].key && ks[j] == ms[j].key;
      }
    }
  }

  /** JavaScript truthiness. */
  predicate Truthy(v: Value) {
    match v
    case Undefined => false
    case Null => false
    case Bool(b) => b
    case Num(n) => n != 0
    case Str(s) => s != ""
    case Arr(_) => true
    case Obj(_) => true
  }

  /** `a || b`. */
  function Or(a: Value, b: Value): (r: Value)
    ensures Truthy(a) ==> r == a
    ensures !Truthy(a) ==> r == b
  {
    if Truthy(a) then a else b
  }

  /** `a ?? b`. */
  function Coalesce(a: Value, b: Value): (r: Value)
    ensures a.Nullish() ==> r == b
    ensures !a.Nullish() ==> r == a
  {
    if a.Nullish() then b else a
  }

  /** `v.key` for a value that is not null or undefined; only objects have the members read here. */
  function Prop(v: Value, key: string): Value {
    if v.Obj? then Lookup(v.members, key) else Undefined
  }

  /** `String(v)`, which is also what `${v}` produces. */
  function Display(v: Value): string {
    match v
    case Undefined => "undefined"
    case Null => "null"
    case Bool(b) => if b then "true" else "false"
    case Num(n) => IntToString(n)
    case Str(s) => s
    case Arr(items) =>
      Join(seq(|items|, i requires 0 <= i < |items| =>
             if items[i].Nullish() then "" else Display(items[i])), ",")
    case Obj(_) => "[object Object]"
  }

  /** `Object.entries(v)`; None when it throws a TypeError (null or undefined).
    * Arrays and strings enumerate their indices; numbers and booleans have no own members. */
  function Entries(v: Value): (r: Option<seq<Member>>)
    ensures r.None? <==> v.Nullish()
    ensures v.Obj? ==> r == Some(v.members)
  {
    match v
    case Undefined => None
    case Null => None
    case Arr(items) => Some(seq(|items|, i requires 0 <= i < |items| => Member(IntToString(i), items[i])))
    case Str(s) => Some(seq(|s|, i requires 0 <= i < |s| => Member(IntToString(i), Str([s[i]]))))
    case Obj(ms) => Some(ms)
    case _ => Some([])
  }

  // ---------------------------------------------------------------------------
  // JSON.stringify

  function HexDigit(d: nat): char
    requires d < 16
  {
    "0123456789abcdef"[d]
  }

  /** The JSON escape of one character inside a string literal. */
  function EscapeChar(c: char): string {
    if c == '"' then "\\\""
    else if c == '\\' then "\\\\"
    else if c == '\U{8}' then "\\b"
    else if c == '\U{C}' then "\\f"
    else if c == '\n' then "\\n"
    else if c == '\r' then "\\r"
    else if c == '\t' then "\\t"
    else if (c as int) < 0x20 then "\\u00" + [HexDigit(c as int / 16), HexDigit(c as int % 16)]
    else [c]
  }

  function Escape(s: string): string {
    if |s| == 0 then "" else EscapeChar(s[0]) + Escape(s[1..])
  }

  /** A character that JSON.stringify writes as itself inside a string literal. */
  predicate PlainChar(c: char) {
    c != '"' && c != '\\' && (c as int) >= 0x20
  }

  predicate Plain(s: string) {
    forall i :: 0 <= i < |s| ==> PlainChar(s[i])
  }

  lemma {:induction false} EscapePlain(s: string)
    requires Plain(s)
    ensures Escape(s) == s
    decreases |s|
  {
    if |s| > 0 {
      EscapePlain(s[1..]);
    }
  }

  function Quote(s: string): string {
    "\"" + Escape(s) + "\""
  }

  /** `JSON.stringify(v)`; None when it returns undefined (for `undefined` itself).
    * Array slots holding undefined print as `null`; object members holding it are skipped. */
  function Stringify(v: Value): (r: Option<string>)
    ensures r.None? <==> v.Undefined?
  {
    match v
    case Undefined => None
    case Null => Some("null")
    case Bool(b) => Some(if b then "true" else "false")
    case Num(n) => Some(IntToString(n))
    case Str(s) => Some(Quote(s))
    case Arr(items) =>
      Some("[" + Join(seq(|items|, i requires 0 <= i < |items| =>
                        if items[i].Undefined? then "null" else Stringify(items[i]).value), ",") + "]")
    case Obj(ms) =>
      Some("{" + Join(MemberTexts(v, 0), ",") + "}")
  }

  /** The `"key":value` text of a member whose value is defined. */
  function MemberJson(m: Member): string
    requires !m.val.Undefined?
  {
    Quote(m.key) + ":" + Stringify(m.val).value
  }

  /** The `"key":value` texts of the members of `o` from index `i` on, skipping undefined values. */
  function MemberTexts(o: Value, i: nat): seq<string>
    requires o.Obj? && i <= |o.members|
    decreases o, |o.members| - i
  {
    if i == |o.members| then []
    else
      var m := o.members[i];
      assert m.val < m;
      if m.val.Undefined? then MemberTexts(o, i + 1)
      else [MemberJson(m)] + MemberTexts(o, i + 1)
  }

  // ---------------------------------------------------------------------------
  // String helpers used on JSON text

  /** `s.slice(1, -1)`. */
  function SliceInner(s: string): (r: string)
    ensures |s| >= 2 ==> s == [s[0]] + r + [s[|s| - 1]]
    ensures |s| < 2 ==> r == ""
  {
    if |s| >= 2 then s[1..|s| - 1] else ""
  }

  /** `s.replace(/c/g, '')` for a single character `c`. */
  function RemoveChar(s: string, c: char): (r: string)
    ensures c !in r
    ensures |r| <= |s|
  {
    if |s| == 0 then ""
    else (if s[0] == c then "" else [s[0]]) + RemoveChar(s[1..], c)
  }

  lemma {:induction false} RemoveCharAppend(a: string, b: string, c: char)
    ensures RemoveChar(a + b, c) == RemoveChar(a, c) + RemoveChar(b, c)
    decreases |a|
  {
    if |a| > 0 {
      assert (a + b)[1..] == a[1..] + b;
      RemoveCharAppend(a[1..], b, c);
    } else {
      assert a + b == b;
    }
  }

  lemma {:induction false} RemoveCharAbsent(s: string, c: char)
    requires c !in s
    ensures RemoveChar(s, c) == s
    decreases |s|
  {
    if |s| > 0 {
      RemoveCharAbsent(s[1..], c);
    }
  }

  /** The frontmatter text of an `equations` statistic:
    * `JSON.stringify(v).slice(1, -1).replace(/"/g, '')`; None when it throws (v undefined). */
  function EquationsText(v: Value): Option<string> {
    var j := Stringify(v);
    if j.None? then None else Some(RemoveChar(SliceInner(j.value), '"'))
  }

  /** A scalar whose JSON text, with quotes removed, is its display text. */
  predicate FlatScalar(v: Value) {
    v.Null? || v.Bool? || v.Num? || (v.Str? && Plain(v.s))
  }

  /** An object of scalar members whose keys need no escaping. */
  predicate FlatObject(v: Value) {
    v.Obj? &&
    forall i :: 0 <= i < |v.members| ==> Plain(v.members[i].key) && FlatScalar(v.members[i].val)
  }

  /** The `k:v` pairs of a flat object, comma separated. */
  function FlatText(ms: seq<Member>): string {
    Join(seq(|ms|, i requires 0 <= i < |ms| => ms[i].key + ":" + Display(ms[i].val)), ",")
  }

  lemma NoQuoteInNat(n: nat)
    ensures '"' !in NatToString(n)
  {
    var s := NatToString(n);
    forall i | 0 <= i < |s| ensures s[i] != '"' {
      assert IsDigit(s[i]);
    }
  }

  lemma PlainHasNoQuote(s: string)
    requires Plain(s)
    ensures '"' !in s
  {
    forall i | 0 <= i < |s| ensures s[i] != '"' {
      assert PlainChar(s[i]);
    }
  }

  /** Removing quotes from a quoted text removes the two delimiters too. */
  lemma RemoveQuotesAround(x: string)
    ensures RemoveChar("\"" + x + "\"", '"') == RemoveChar(x, '"')
  {
    RemoveCharAppend("\"" + x, "\"", '"');
    RemoveCharAppend("\"", x, '"');
  }

  lemma ScalarText(v: Value)
    requires FlatScalar(v)
    ensures Stringify(v).Some?
    ensures RemoveChar(Stringify(v).value, '"') == Display(v)
  {
    match v
    case Null => RemoveCharAbsent("null", '"');
    case Bool(b) => RemoveCharAbsent("true", '"'); RemoveCharAbsent("false", '"');
    case Num(n) =>
      var m: nat := if n < 0 then -n else n;
      NoQuoteInNat(m);
      RemoveCharAbsent(IntToString(n), '"');
    case Str(s) =>
      EscapePlain(s);
      PlainHasNoQuote(s);
      RemoveQuotesAround(s);
      RemoveCharAbsent(s, '"');
  }

  lemma MemberText(k: string, v: Value)
    requires Plain(k) && FlatScalar(v)
    ensures Stringify(v).Some?
    ensures RemoveChar(Quote(k) + ":" + Stringify(v).value, '"') == k + ":" + Display(v)
  {
    ScalarText(v);
    EscapePlain(k);
    PlainHasNoQuote(k);
    var t := Stringify(v).value;
    RemoveQuotesAround(k);
    RemoveCharAbsent(k, '"');
    assert RemoveChar(Quote(k), '"') == k;
    RemoveCharAppend(Quote(k) + ":", t, '"');
    RemoveCharAppend(Quote(k), ":", '"');
    RemoveCharAbsent(":", '"');
  }

  /** Removing a character from comma-joined texts removes it from each text. */
  lemma {:induction false} RemoveCharJoin(xs: seq<string>, ys: seq<string>, c: char)
    requires c != ',' && |xs| == |ys|
    requires forall i :: 0 <= i < |xs| ==> RemoveChar(xs[i], c) == ys[i]
    ensures RemoveChar(Join(xs, ","), c) == Join(ys, ",")
    decreases |xs|
  {
    if |xs| > 1 {
      RemoveCharJoin(xs[1..], ys[1..], c);
      RemoveCharAppend(xs[0] + ",", Join(xs[1..], ","), c);
      RemoveCharAppend(xs[0], ",", c);
      RemoveCharAbsent(",", c);
    }
  }

  /** An object none of whose members is undefined. */
  predicate AllDefined(o: Value) {
    o.Obj? && forall k | 0 <= k < |o.members| :: !o.members[k].val.Undefined?
  }

  /** An object without undefined members has one `"key":value` text per member from `i` on. */
  lemma {:induction false} MemberTextsLength(o: Value, i: nat)
    requires AllDefined(o) && i <= |o.members|
    ensures |MemberTexts(o, i)| == |o.members| - i
    decreases |o.members| - i
  {
    if i < |o.members| {
      MemberTextsLength(o, i + 1);
    }
  }

  /** The text at position `j` is that of member `i + j`. */
  lemma {:induction false} MemberTextAt(o: Value, i: nat, j: nat)
    requires AllDefined(o) && i + j < |o.members|
    ensures |MemberTexts(o, i)| > j && MemberTexts(o, i)[j] == MemberJson(o.members[i + j])
    decreases j
  {
    MemberTextsCons(o, i);
    if j > 0 {
      MemberTextAt(o, i + 1, j - 1);
      var rest := MemberTexts(o, i + 1);
      assert MemberTexts(o, i)[j] == rest[j - 1];
    }
  }

  lemma MemberTextsCons(o: Value, i: nat)
    requires AllDefined(o) && i < |o.members|
    ensures MemberTexts(o, i) == [MemberJson(o.members[i])] + MemberTexts(o, i + 1)
  {
  }

  /** For a flat object, the `equations` text is `k:v` per member, comma separated:
    * the JSON text without its braces and quotes. */
  lemma EquationsOfFlatObject(v: Value)
    requires FlatObject(v)
    ensures EquationsText(v) == Some(FlatText(v.members))
  {
    var ms := v.members;
    var texts := MemberTexts(v, 0);
    MemberTextsLength(v, 0);
    var j := Join(texts, ",");
    assert Stringify(v) == Some("{" + j + "}");
    assert SliceInner("{" + j + "}") == j;
    var ys := seq(|ms|, i requires 0 <= i < |ms| => ms[i].key + ":" + Display(ms[i].val));
    forall i | 0 <= i < |texts| ensures RemoveChar(texts[i], '"') == ys[i] {
      MemberTextAt(v, 0, i);
      MemberText(ms[i].key, ms[i].val);
    }
    RemoveCharJoin(texts, ys, '"');
  }
}
