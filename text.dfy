/**
 * The JavaScript string operations the plugin relies on (startsWith, indexOf,
 * split, join, String(n), parseInt) and the UTF-8 encoding that
 * `TextEncoder.encode` applies to the textual parts of a request body.
 * A Dafny `char` is a Unicode scalar value; JavaScript counts UTF-16 code
 * units, which only differs for characters outside the Basic Multilingual Plane.
 */
module Text {
  import opened Wrappers

  /** An octet of a request body (an element of a `Uint8Array`). */
  type byte = x: int | 0 <= x < 256

  predicate StartsWith(s: string, p: string) {
    |p| <= |s| && s[..|p|] == p
  }

  predicate EndsWith(s: string, p: string) {
    |p| <= |s| && s[|s| - |p|..] == p
  }

  /** `sub` occurs in `s` starting at index `i`. */
  predicate OccursAt(s: string, sub: string, i: int) {
    0 <= i && i + |sub| <= |s| && s[i..i + |sub|] == sub
  }

  /** String.prototype.includes. */
  predicate Contains(s: string, sub: string) {
    exists i | 0 <= i <= |s| :: OccursAt(s, sub, i)
  }

  /** String.prototype.indexOf for a one-character needle that occurs. */
  function IndexOf(s: string, c: char): (i: nat)
    requires c in s
    ensures i < |s| && s[i] == c && c !in s[..i]
  {
    if s[0] == c then 0
    else
      assert c in s[1..] by { var k :| 0 <= k < |s| && s[k] == c; assert s[1..][k - 1] == c; }
      var j := IndexOf(s[1..], c);
      assert s[..j + 1] == [s[0]] + s[1..][..j];
      j + 1
  }

  /** String.prototype.lastIndexOf for a one-character needle that occurs. */
  function LastIndexOf(s: string, c: char): (i: nat)
    requires c in s
    ensures i < |s| && s[i] == c && c !in s[i + 1..]
  {
    if s[|s| - 1] == c then |s| - 1
    else
      var t := s[..|s| - 1];
      assert c in t by { var k :| 0 <= k < |s| && s[k] == c; assert t[k] == c; }
      var j := LastIndexOf(t, c);
      assert s[j + 1..] == t[j + 1..] + [s[|s| - 1]];
      j
  }

  /** The last occurrence is the only index holding `c` with no `c` after it. */
  lemma LastIndexOfUnique(s: string, c: char, j: int)
    requires 0 <= j < |s| && s[j] == c && c !in s[j + 1..]
    ensures LastIndexOf(s, c) == j
  {
    var l := LastIndexOf(s, c);
    forall k | l < k < |s| ensures s[k] != c { assert s[l + 1..][k - l - 1] == s[k]; }
    forall k | j < k < |s| ensures s[k] != c { assert s[j + 1..][k - j - 1] == s[k]; }
  }

  /** The first occurrence is the only index holding `c` with no `c` before it. */
  lemma IndexOfUnique(s: string, c: char, j: int)
    requires 0 <= j < |s| && s[j] == c && c !in s[..j]
    ensures IndexOf(s, c) == j
  {
    var f := IndexOf(s, c);
    forall k | 0 <= k < f ensures s[k] != c { assert s[..f][k] == s[k]; }
    forall k | 0 <= k < j ensures s[k] != c { assert s[..j][k] == s[k]; }
  }

  /** String.prototype.split with a one-character separator. */
  function Split(s: string, sep: char): (parts: seq<string>)
    ensures |parts| >= 1
    decreases |s|
  {
    if sep in s then
      var i := IndexOf(s, sep);
      [s[..i]] + Split(s[i + 1..], sep)
    else [s]
  }

  /** Array.prototype.join. */
  function Join(parts: seq<string>, sep: string): string {
    if |parts| == 0 then ""
    else if |parts| == 1 then parts[0]
    else parts[0] + sep + Join(parts[1..], sep)
  }

  /** Joining one more string adds the separator and that string at the end. */
  lemma {:induction false} JoinSnoc(parts: seq<string>, x: string, sep: string)
    requires |parts| > 0
    ensures Join(parts + [x], sep) == Join(parts, sep) + sep + x
    decreases |parts|
  {
    if |parts| > 1 {
      assert (parts + [x])[1..] == parts[1..] + [x];
      JoinSnoc(parts[1..], x, sep);
    } else {
      assert parts + [x] == [parts[0], x];
      assert [parts[0], x][1..] == [x];
    }
  }

  function Last<T>(s: seq<T>): T
    requires |s| > 0
  {
    s[|s| - 1]
  }

  /** Everything before the last `sep`, or "" when there is none. */
  function BeforeLast(s: string, sep: char): string {
    if sep in s then s[..LastIndexOf(s, sep)] else ""
  }

  /** Everything after the last `sep`, or all of `s` when there is none. */
  function AfterLast(s: string, sep: char): string {
    if sep in s then s[LastIndexOf(s, sep) + 1..] else s
  }

  /** Everything before the first `sep`, or all of `s` when there is none. */
  function BeforeFirst(s: string, sep: char): string {
    if sep in s then s[..IndexOf(s, sep)] else s
  }

  /** Splitting and joining with the same separator gives the string back. */
  lemma {:induction false} JoinSplit(s: string, sep: char)
    ensures Join(Split(s, sep), [sep]) == s
    decreases |s|
  {
    if sep in s {
      var i := IndexOf(s, sep);
      JoinSplit(s[i + 1..], sep);
      var rest := Split(s[i + 1..], sep);
      assert Split(s, sep) == [s[..i]] + rest;
      assert s == s[..i] + [sep] + s[i + 1..];
    }
  }

  /** Split at the first separator: the piece before it, then the pieces of the rest. */
  lemma SplitStep(s: string, sep: char)
    requires sep in s
    ensures Split(s, sep) == [s[..IndexOf(s, sep)]] + Split(s[IndexOf(s, sep) + 1..], sep)
  {
  }

  /** No piece produced by Split holds the separator. */
  lemma {:induction false} SplitPiecesHaveNoSeparator(s: string, sep: char, k: int)
    requires 0 <= k < |Split(s, sep)|
    ensures sep !in Split(s, sep)[k]
    decreases |s|
  {
    if sep in s {
      var i := IndexOf(s, sep);
      var rest := Split(s[i + 1..], sep);
      SplitStep(s, sep);
      if k > 0 {
        assert Split(s, sep)[k] == rest[k - 1];
        SplitPiecesHaveNoSeparator(s[i + 1..], sep, k - 1);
      }
    }
  }

  /** The first piece is what comes before the first separator: `s.split(sep)[0]`. */
  lemma SplitFirst(s: string, sep: char)
    ensures Split(s, sep)[0] == BeforeFirst(s, sep)
  {
  }

  /** Past a separator at `i`, the text after the last separator is the same. */
  lemma AfterLastPast(s: string, sep: char, i: nat)
    requires i < |s| && s[i] == sep
    ensures AfterLast(s, sep) == AfterLast(s[i + 1..], sep)
  {
    var t := s[i + 1..];
    if sep in t {
      var l := LastIndexOf(t, sep);
      assert s[i + 1 + l] == sep;
      assert s[i + 1 + l + 1..] == t[l + 1..];
      LastIndexOfUnique(s, sep, i + 1 + l);
    } else {
      LastIndexOfUnique(s, sep, i);
    }
  }

  /** The two halves of a concatenation are read back by slicing. */
  lemma Halves<T>(a: seq<T>, b: seq<T>)
    ensures (a + b)[..|a|] == a && (a + b)[|a|..] == b
  {
  }

  /** The last element of a sequence with a head is the last of its tail. */
  lemma LastOfCons<T>(x: T, r: seq<T>)
    requires |r| >= 1
    ensures Last([x] + r) == Last(r)
  {
  }

  /** Index `l` of the rest after index `i`, seen from the whole sequence. */
  lemma Across<T>(s: seq<T>, i: nat, l: nat)
    requires i + 1 + l < |s|
    ensures s[i + 1..][l] == s[i + 1 + l]
    ensures s[i + 1 + l + 1..] == s[i + 1..][l + 1..]
    ensures s[..i + 1 + l] == s[..i] + [s[i]] + s[i + 1..][..l]
  {
  }

  /** The last piece is what follows the last separator: `s.split(sep).pop()`. */
  lemma {:induction false} SplitLast(s: string, sep: char)
    ensures Last(Split(s, sep)) == AfterLast(s, sep)
    decreases |s|
  {
    if sep in s {
      var i := IndexOf(s, sep);
      var t := s[i + 1..];
      var rest := Split(t, sep);
      SplitStep(s, sep);
      LastOfCons(s[..i], rest);
      SplitLast(t, sep);
      AfterLastPast(s, sep, i);
    }
  }

  /** How the text before the last separator decomposes at the first separator. */
  lemma BeforeLastStep(s: string, sep: char)
    requires sep in s
    ensures var i := IndexOf(s, sep);
            var t := s[i + 1..];
            BeforeLast(s, sep) == if sep in t then s[..i] + [sep] + BeforeLast(t, sep) else s[..i]
  {
    var i := IndexOf(s, sep);
    var t := s[i + 1..];
    if sep in t {
      var l := LastIndexOf(t, sep);
      Across(s, i, l);
      LastIndexOfUnique(s, sep, i + 1 + l);
    } else {
      LastIndexOfUnique(s, sep, i);
    }
  }

  /** Dropping the last element of a sequence with a head keeps the head. */
  lemma DropLastOfCons<T>(x: T, r: seq<T>)
    requires |r| >= 1
    ensures ([x] + r)[..|r|] == [x] + r[..|r| - 1]
  {
  }

  /** Joining a head and at least one more piece puts the separator after the head. */
  lemma JoinCons(x: string, rest: seq<string>, sep: string)
    requires |rest| >= 1
    ensures Join([x] + rest, sep) == x + sep + Join(rest, sep)
  {
    assert ([x] + rest)[1..] == rest;
  }

  lemma {:induction false} JoinAllButLast(s: string, sep: char)
    ensures var parts := Split(s, sep);
            Join(parts[..|parts| - 1], [sep]) == BeforeLast(s, sep)
    decreases |s|
  {
    var parts := Split(s, sep);
    if sep in s {
      var i := IndexOf(s, sep);
      var t := s[i + 1..];
      var rest := Split(t, sep);
      SplitStep(s, sep);
      assert parts == [s[..i]] + rest;
      BeforeLastStep(s, sep);
      if sep in t {
        SplitStep(t, sep);
        DropLastOfCons(s[..i], rest);
        JoinCons(s[..i], rest[..|rest| - 1], [sep]);
        JoinAllButLast(t, sep);
      } else {
        assert rest == [t];
        assert parts[..|parts| - 1] == [s[..i]];
      }
    }
  }

  // ---------------------------------------------------------------------------
  // Decimal numerals: template-literal interpolation of an integer and parseInt

  predicate IsDigit(c: char) {
    '0' <= c <= '9'
  }

  predicate AllDigits(s: string) {
    forall i :: 0 <= i < |s| ==> IsDigit(s[i])
  }

  function DigitChar(d: nat): char
    requires d < 10
  {
    "0123456789"[d]
  }

  /** `${n}` for a non-negative integer. */
  function NatToString(n: nat): (s: string)
    ensures |s| >= 1 && AllDigits(s)
  {
    if n < 10 then [DigitChar(n)] else NatToString(n / 10) + [DigitChar(n % 10)]
  }

  /** `${n}` for an integer. */
  function IntToString(n: int): string {
    if n < 0 then "-" + NatToString(-n) else NatToString(n)
  }

  /** The value of a digit string read in base 10. */
  function DigitsValue(ds: string): nat
    requires AllDigits(ds)
  {
    if |ds| == 0 then 0
    else 10 * DigitsValue(ds[..|ds| - 1]) + (ds[|ds| - 1] as int - '0' as int)
  }

  /** Length of the longest prefix of `s` made of digits. */
  function LeadingDigits(s: string): (n: nat)
    ensures n <= |s| && AllDigits(s[..n]) && (n < |s| ==> !IsDigit(s[n]))
  {
    if |s| == 0 || !IsDigit(s[0]) then 0
    else
      var k := LeadingDigits(s[1..]);
      assert s[..k + 1] == [s[0]] + s[1..][..k];
      k + 1
  }

  /** `parseInt(s)` (radix 10): an optional sign and the longest digit prefix;
    * None stands for NaN. Leading white space is not skipped here. */
  function ParseInt(s: string): Option<int> {
    var negative := |s| > 0 && s[0] == '-';
    var body := if |s| > 0 && (s[0] == '-' || s[0] == '+') then s[1..] else s;
    var n := LeadingDigits(body);
    if n == 0 then None
    else
      var v: int := DigitsValue(body[..n]);
      Some(if negative then -v else v)
  }

  lemma {:induction false} DigitsValueOfNatToString(n: nat)
    ensures DigitsValue(NatToString(n)) == n
    decreases n
  {
    if n >= 10 {
      DigitsValueOfNatToString(n / 10);
      var s := NatToString(n);
      assert s[..|s| - 1] == NatToString(n / 10);
    }
  }

  /** parseInt reads back every integer that `${n}` prints. */
  lemma ParseIntOfIntToString(n: int)
    ensures ParseInt(IntToString(n)) == Some(n)
  {
    var m: nat := if n < 0 then -n else n;
    var ds := NatToString(m);
    DigitsValueOfNatToString(m);
    var s := IntToString(n);
    var body := if n < 0 then s[1..] else s;
    assert body == ds;
    assert body[..|ds|] == ds;
    if n >= 0 {
      assert s[0] != '-' && s[0] != '+' by { assert IsDigit(ds[0]); }
    }
  }

  // ---------------------------------------------------------------------------
  // UTF-8, as TextEncoder.encode produces it

  /** The UTF-8 encoding of one scalar value. */
  function Utf8(c: char): (bs: seq<byte>)
    ensures 1 <= |bs| <= 4
    ensures (c as int) < 0x80 ==> bs == [c as int]
  {
    var v := c as int;
    if v < 0x80 then [v]
    else if v < 0x800 then [0xC0 + v / 0x40, 0x80 + v % 0x40]
    else if v < 0x10000 then [0xE0 + v / 0x1000, 0x80 + (v / 0x40) % 0x40, 0x80 + v % 0x40]
    else [0xF0 + v / 0x40000, 0x80 + (v / 0x1000) % 0x40, 0x80 + (v / 0x40) % 0x40, 0x80 + v % 0x40]
  }

  /** `new TextEncoder().encode(s)`. */
  function Encode(s: string): seq<byte> {
    if |s| == 0 then [] else Utf8(s[0]) + Encode(s[1..])
  }

  predicate IsAscii(s: string) {
    forall i :: 0 <= i < |s| ==> (s[i] as int) < 0x80
  }

  /** Encoding a concatenation is concatenating the encodings. */
  lemma {:induction false} EncodeAppend(a: string, b: string)
    ensures Encode(a + b) == Encode(a) + Encode(b)
    decreases |a|
  {
    if |a| > 0 {
      assert (a + b)[1..] == a[1..] + b;
      EncodeAppend(a[1..], b);
    } else {
      assert a + b == b;
    }
  }

  /** An ASCII string encodes to one byte per character, each its code. */
  lemma {:induction false} EncodeAscii(s: string)
    requires IsAscii(s)
    ensures |Encode(s)| == |s|
    ensures forall i :: 0 <= i < |s| ==> Encode(s)[i] == s[i] as int
    decreases |s|
  {
    if |s| > 0 {
      EncodeAscii(s[1..]);
    }
  }
}
