/**
 * The three regular expressions the plugin applies to names and markdown:
 *   `/\.pdf(?=[^.]*$)/`        the image-name prefix and the clean image path,
 *   `/\s+/g`                   whitespace runs in the clean image path,
 *   `/!\[.*\]\((.*)\)/g`       image references (rewritten or stripped).
 * Each is given an exact characterisation of the positions it matches, and
 * `String.prototype.replace` is modelled with the JavaScript semantics of a
 * global replace and of a replacement template (`$1`, `$$`, `$&`, ...).
 */
module Patterns {
  import opened Wrappers
  import opened Text

  // ---------------------------------------------------------------------
  // `/\.pdf(?=[^.]*$)/`
  // ---------------------------------------------------------------------

  /** The pattern matches at `p`: ".pdf" starts there and no '.' follows it. */
  predicate PdfAt(s: string, p: int) {
    OccursAt(s, ".pdf", p) && '.' !in s[p + 4..]
  }

  /** The (only possible) match position: it can only be the last '.'. */
  function PdfMatch(s: string): (r: Option<nat>)
    ensures r.Some? ==> PdfAt(s, r.value)
  {
    if '.' in s then
      var d := LastIndexOf(s, '.');
      if OccursAt(s, ".pdf", d) then
        assert s[d + 4..] == s[d + 1..][3..];
        Some(d)
      else None
    else None
  }

  /** The pattern matches at `p` exactly when `PdfMatch` reports `p`. */
  lemma PdfMatchExact(s: string, p: int)
    ensures PdfMatch(s) == Some(p) <==> PdfAt(s, p)
  {
    if PdfAt(s, p) {
      assert s[p] == s[p..p + 4][0] == '.';
      assert s[p + 1..] == s[p + 1..p + 4] + s[p + 4..];
      assert s[p + 1..p + 4] == s[p..p + 4][1..] == "pdf";
      LastIndexOfUnique(s, '.', p);
    }
  }

  /** `s.replace(/\.pdf(?=[^.]*$)/, rep)`: replaces the match, if any. */
  function ReplacePdf(s: string, rep: string): string {
    match PdfMatch(s)
    case Some(p) => s[..p] + rep + s[p + 4..]
    case None => s
  }

  /** A name ending in ".pdf" loses exactly that suffix to `rep`. */
  lemma ReplacePdfOfPdfName(stem: string, rep: string)
    ensures ReplacePdf(stem + ".pdf", rep) == stem + rep
  {
    var s := stem + ".pdf";
    assert s[|stem|..|stem| + 4] == ".pdf";
    assert s[|stem| + 4..] == [];
    PdfMatchExact(s, |stem|);
    assert s[..|stem|] == stem;
  }

  /** Where the last '.' does not begin ".pdf" (or there is no '.'), nothing changes. */
  lemma ReplacePdfKeepsOtherNames(s: string, rep: string)
    requires '.' in s ==> !OccursAt(s, ".pdf", LastIndexOf(s, '.'))
    ensures ReplacePdf(s, rep) == s
  {
  }

  /** `ReplacePdf(name, "_")`: the prefix given to image names in an asset subfolder. */
  function ImagePrefix(name: string): string {
    ReplacePdf(name, "_")
  }

  // ---------------------------------------------------------------------
  // `/\s+/g` replaced by "%20"
  // ---------------------------------------------------------------------

  /** JavaScript's `\s`: WhiteSpace and LineTerminator code points. */
  predicate IsSpace(c: char) {
    c == '\t' || c == '\n' || c == '\U{B}' || c == '\U{C}' || c == '\r' || c == ' '
    || c == '\U{A0}' || c == '\U{1680}' || ('\U{2000}' <= c <= '\U{200A}')
    || c == '\U{2028}' || c == '\U{2029}' || c == '\U{202F}' || c == '\U{205F}'
    || c == '\U{3000}' || c == '\U{FEFF}'
  }

  predicate NoSpace(s: string) {
    forall i :: 0 <= i < |s| ==> !IsSpace(s[i])
  }

  predicate AllSpace(s: string) {
    forall i :: 0 <= i < |s| ==> IsSpace(s[i])
  }

  /** The length of the (maximal) whitespace run at the start of `s`. */
  function SpaceRun(s: string): (n: nat)
    ensures n <= |s| && AllSpace(s[..n])
    ensures n < |s| ==> !IsSpace(s[n])
  {
    if |s| == 0 || !IsSpace(s[0]) then 0
    else
      var n := SpaceRun(s[1..]);
      assert s[..n + 1] == [s[0]] + s[1..][..n];
      n + 1
  }

  /** `s.replace(/\s+/g, '%20')`. */
  function EncodeSpaces(s: string): (r: string)
    ensures NoSpace(r)
    decreases |s|
  {
    if |s| == 0 then ""
    else if IsSpace(s[0]) then
      var n := SpaceRun(s);
      "%20" + EncodeSpaces(s[n..])
    else [s[0]] + EncodeSpaces(s[1..])
  }

  /** A string without whitespace is left unchanged. */
  lemma {:induction false} EncodeSpacesIdentity(s: string)
    requires NoSpace(s)
    ensures EncodeSpaces(s) == s
    decreases |s|
  {
    if |s| > 0 {
      assert !IsSpace(s[0]);
      assert NoSpace(s[1..]) by {
        forall i | 0 <= i < |s| - 1 ensures !IsSpace(s[1..][i]) { assert s[1..][i] == s[i + 1]; }
      }
      EncodeSpacesIdentity(s[1..]);
    }
  }

  /** A maximal whitespace run, however long, becomes one "%20". */
  lemma {:induction false} EncodeSpacesRun(a: string, w: string, b: string)
    requires NoSpace(a) && |w| > 0 && AllSpace(w)
    requires |b| > 0 ==> !IsSpace(b[0])
    ensures EncodeSpaces(a + w + b) == EncodeSpaces(a) + "%20" + EncodeSpaces(b)
    decreases |a|
  {
    var s := a + w + b;
    if |a| == 0 {
      assert s == w + b;
      var n := SpaceRun(s);
      forall i | 0 <= i < |w| ensures IsSpace(s[i]) { assert s[i] == w[i]; }
      assert n == |w| by {
        RunLength(s, |w|);
      }
      assert s[n..] == b;
    } else {
      assert s[0] == a[0] && !IsSpace(a[0]);
      assert s[1..] == a[1..] + w + b;
      assert NoSpace(a[1..]) by {
        forall i | 0 <= i < |a| - 1 ensures !IsSpace(a[1..][i]) { assert a[1..][i] == a[i + 1]; }
      }
      EncodeSpacesRun(a[1..], w, b);
    }
  }

  /** A run of `m` spaces followed by a non-space (or the end) has length `m`. */
  lemma {:induction false} RunLength(s: string, m: nat)
    requires m <= |s| && m > 0
    requires forall i :: 0 <= i < m ==> IsSpace(s[i])
    requires m < |s| ==> !IsSpace(s[m])
    ensures SpaceRun(s) == m
    decreases m
  {
    if m > 1 {
      forall i | 0 <= i < m - 1 ensures IsSpace(s[1..][i]) { assert s[1..][i] == s[i + 1]; }
      RunLength(s[1..], m - 1);
    } else if |s| > 1 {
      assert s[1..][0] == s[1];
    }
  }

  /** `originalFile.name.replace(/\.pdf(?=[^.]*$)/, '_').replace(/\s+/g, '%20')`. */
  function CleanImagePath(name: string): (r: string)
    ensures NoSpace(r)
  {
    EncodeSpaces(ImagePrefix(name))
  }


  // ---------------------------------------------------------------------
  // Lines: `.` in a JavaScript regular expression never matches a line terminator.
  // ---------------------------------------------------------------------

  predicate IsLineTerminator(c: char) {
    c == '\n' || c == '\r' || c == '\U{2028}' || c == '\U{2029}'
  }

  predicate SingleLine(s: string) {
    forall i :: 0 <= i < |s| ==> !IsLineTerminator(s[i])
  }

  /** The index of the first line terminator, or `|s|` when there is none. */
  function LineEnd(s: string): (t: nat)
    ensures t <= |s| && SingleLine(s[..t])
    ensures t < |s| ==> IsLineTerminator(s[t])
  {
    if |s| == 0 || IsLineTerminator(s[0]) then 0
    else
      var t := LineEnd(s[1..]);
      assert s[..t + 1] == [s[0]] + s[1..][..t];
      t + 1
  }

  lemma {:induction false} LineEndOfSingleLine(x: string, y: string)
    requires SingleLine(x)
    requires |y| > 0 ==> IsLineTerminator(y[0])
    ensures LineEnd(x + y) == |x|
    decreases |x|
  {
    if |x| > 0 {
      assert (x + y)[0] == x[0];
      assert (x + y)[1..] == x[1..] + y;
      assert SingleLine(x[1..]) by {
        forall i | 0 <= i < |x| - 1 ensures !IsLineTerminator(x[1..][i]) { assert x[1..][i] == x[i + 1]; }
      }
      LineEndOfSingleLine(x[1..], y);
    } else {
      assert x + y == y;
    }
  }

  // ---------------------------------------------------------------------
  // `/!\[.*\]\((.*)\)/g` on one line
  // ---------------------------------------------------------------------

  predicate PairAt(s: string, k: int, c1: char, c2: char) {
    0 <= k && k + 1 < |s| && s[k] == c1 && s[k + 1] == c2
  }

  /**
   * The pattern can match `s[i..k + 1]` with its `\]\(` at `a`: "![" at `i`,
   * "](" at `a`, ")" at `k`, the two `.*` covering `s[i + 2..a]` and `s[a + 2..k]`.
   */
  predicate RefAt(s: string, i: int, a: int, k: int) {
    i + 2 <= a && a + 2 <= k && k < |s|
    && PairAt(s, i, '!', '[') && PairAt(s, a, ']', '(') && s[k] == ')'
  }

  /** The last index `<= hi` holding `c`. */
  function LastCharUpTo(s: string, c: char, hi: int): (r: Option<nat>)
    requires hi < |s|
    ensures r.Some? ==> r.value <= hi && s[r.value] == c
    ensures r.None? ==> forall k | 0 <= k <= hi :: s[k] != c
    ensures r.Some? ==> forall k | r.value < k <= hi :: s[k] != c
    decreases hi + 1
  {
    if hi < 0 then None
    else if s[hi] == c then Some(hi)
    else LastCharUpTo(s, c, hi - 1)
  }

  /** The last index `<= hi` where the pair `c1 c2` starts. */
  function LastPairUpTo(s: string, c1: char, c2: char, hi: int): (r: Option<nat>)
    requires hi + 1 < |s|
    ensures r.Some? ==> r.value <= hi && PairAt(s, r.value, c1, c2)
    ensures r.None? ==> forall k | k <= hi :: !PairAt(s, k, c1, c2)
    ensures r.Some? ==> forall k | r.value < k <= hi :: !PairAt(s, k, c1, c2)
    decreases hi + 1
  {
    if hi < 0 then None
    else if PairAt(s, hi, c1, c2) then Some(hi)
    else LastPairUpTo(s, c1, c2, hi - 1)
  }

  /** The first index in `lo..hi` where the pair `c1 c2` starts. */
  function FirstPairIn(s: string, c1: char, c2: char, lo: nat, hi: int): (r: Option<nat>)
    requires hi + 1 < |s|
    ensures r.Some? ==> lo <= r.value <= hi && PairAt(s, r.value, c1, c2)
    ensures r.None? ==> forall k | lo <= k <= hi :: !PairAt(s, k, c1, c2)
    ensures r.Some? ==> forall k | lo <= k < r.value :: !PairAt(s, k, c1, c2)
    decreases hi + 1 - lo
  {
    if hi < lo then None
    else if PairAt(s, lo, c1, c2) then Some(lo)
    else FirstPairIn(s, c1, c2, lo + 1, hi)
  }

  /**
   * The match the regular expression engine picks: the leftmost start, and for
   * it the greedy choice, i.e. the last "](" that still has a ")" after it and
   * the last ")". All three extremes are attained at once.
   */
  function FindRef(s: string): (r: Option<(nat, nat, nat)>)
    ensures r.Some? ==> RefAt(s, r.value.0, r.value.1, r.value.2)
    ensures forall i, a, k | RefAt(s, i, a, k) ::
      r.Some? && r.value.0 <= i && a <= r.value.1 && k <= r.value.2
  {
    match LastCharUpTo(s, ')', |s| - 1)
    case None => None
    case Some(k) =>
      match LastPairUpTo(s, ']', '(', k - 2)
      case None => None
      case Some(a) =>
        match FirstPairIn(s, '!', '[', 0, a - 2)
        case None => None
        case Some(i) => Some((i, a, k))
  }

  /** After the match no further match starts on the same line, so `/g` replaces one. */
  lemma OneRefPerLine(s: string)
    requires FindRef(s).Some?
    ensures FindRef(s[FindRef(s).value.2 + 1..]) == None
  {
    var k := FindRef(s).value.2;
    var rest := s[k + 1..];
    forall j | 0 <= j < |rest| ensures rest[j] != ')' {
      assert rest[j] == s[k + 1 + j];
      assert !RefAt(s, FindRef(s).value.0, FindRef(s).value.1, k + 1 + j);
    }
  }

  /** `line.replace(/!\[.*\]\(.*\)/g, '')`. */
  function StripLine(line: string): string {
    match FindRef(line)
    case None => line
    case Some((i, _, k)) => line[..i] + line[k + 1..]
  }

  /** Stripping leaves no image reference on the line. */
  lemma StripLineRefFree(line: string)
    ensures FindRef(StripLine(line)) == None
  {
    match FindRef(line)
    case None =>
    case Some((i, a, k)) =>
      var r := line[..i] + line[k + 1..];
      forall j | i <= j < |r| ensures r[j] != ')' {
        assert r[j] == line[j - i + k + 1];
        assert !RefAt(line, i, a, j - i + k + 1);
      }
      forall j | 0 <= j < i ensures r[j] == line[j] { }
      forall i', a', k' | RefAt(r, i', a', k') ensures RefAt(line, i', a', k') {
        assert k' < i;
      }
  }

  lemma StripLineSingleLine(line: string)
    requires SingleLine(line)
    ensures SingleLine(StripLine(line))
  {
    match FindRef(line)
    case None =>
    case Some((i, _, k)) =>
      var r := line[..i] + line[k + 1..];
      forall j | 0 <= j < |r| ensures !IsLineTerminator(r[j]) {
        if j < i { assert r[j] == line[j]; } else { assert r[j] == line[j - i + k + 1]; }
      }
  }

  /** The link the rewrite means to write for group `g`: `![g](assets/<clean>g)`. */
  function AssetLink(g: string, clean: string): string {
    "![" + g + "](assets/" + clean + g + ")"
  }

  /** The reference on the line, if any, replaced by `AssetLink` of its group. */
  function RewriteLine(line: string, clean: string): string {
    match FindRef(line)
    case None => line
    case Some((i, a, k)) => line[..i] + AssetLink(line[a + 2..k], clean) + line[k + 1..]
  }

  // ---------------------------------------------------------------------
  // The replacement template, as `String.prototype.replace` reads it
  // ---------------------------------------------------------------------

  /**
   * GetSubstitution for a pattern with one capture group: `$$` is '$', `$&`
   * the match, `` $` `` the text before it, `$'` the text after it, `$1` and
   * `$01` the group; every other '$' stands for itself.
   */
  function Substitute(t: string, matched: string, group: string, before: string, after: string): (r: string)
    ensures matched == group == before == after == "" ==> |r| <= |t|
    decreases |t|
  {
    if |t| == 0 then ""
    else if t[0] != '$' || |t| == 1 then [t[0]] + Substitute(t[1..], matched, group, before, after)
    else if t[1] == '$' then "$" + Substitute(t[2..], matched, group, before, after)
    else if t[1] == '&' then matched + Substitute(t[2..], matched, group, before, after)
    else if t[1] == '`' then before + Substitute(t[2..], matched, group, before, after)
    else if t[1] == '\'' then after + Substitute(t[2..], matched, group, before, after)
    else if t[1] == '1' then group + Substitute(t[2..], matched, group, before, after)
    else if t[1] == '0' && |t| >= 3 && t[2] == '1' then group + Substitute(t[3..], matched, group, before, after)
    else "$" + Substitute(t[1..], matched, group, before, after)
  }

  /** `s` holds no '$'. */
  predicate NoDollar(s: string) {
    forall j | 0 <= j < |s| :: s[j] != '$'
  }

  /** Text without '$' is copied through unchanged. */
  lemma {:induction false} SubstituteLiteral(x: string, y: string, m: string, g: string, b: string, a: string)
    requires NoDollar(x)
    ensures Substitute(x + y, m, g, b, a) == x + Substitute(y, m, g, b, a)
    decreases |x|
  {
    if |x| > 0 {
      assert (x + y)[0] == x[0] && (x + y)[1..] == x[1..] + y;
      assert NoDollar(x[1..]) by {
        forall j | 0 <= j < |x| - 1 ensures x[1..][j] != '$' { assert x[1..][j] == x[j + 1]; }
      }
      SubstituteLiteral(x[1..], y, m, g, b, a);
    } else {
      assert x + y == y;
    }
  }

  /** `$1` stands for the group. */
  lemma SubstituteGroup(y: string, m: string, g: string, b: string, a: string)
    ensures Substitute("$1" + y, m, g, b, a) == g + Substitute(y, m, g, b, a)
  {
    var t := "$1" + y;
    assert t[0] == '$' && t[1] == '1' && t[2..] == y;
  }

  /** `$$` stands for one '$'. */
  lemma SubstituteDollar(y: string, m: string, g: string, b: string, a: string)
    ensures Substitute("$$" + y, m, g, b, a) == "$" + Substitute(y, m, g, b, a)
  {
    var t := "$$" + y;
    assert t[0] == '$' && t[1] == '$' && t[2..] == y;
  }

  /** The template `![$1](assets/<clean>$1)` the source hands to `replace`. */
  function LinkTemplate(clean: string): string {
    "![" + ("$1" + ("](assets/" + (clean + ("$1" + ")"))))
  }

  /** The reference on the line replaced by the expanded template `tmpl`, as the source does. */
  function RewriteLineAsWritten(full: string, off: nat, line: string, tmpl: string): string {
    match FindRef(line)
    case None => line
    case Some((i, a, k)) =>
      var before := if off + i <= |full| then full[..off + i] else full;
      var after := if off + k + 1 <= |full| then full[off + k + 1..] else [];
      line[..i] + Substitute(tmpl, line[i..k + 1], line[a + 2..k], before, after)
      + line[k + 1..]
  }

  /** The tail `<c>$1)` of the template expands to `<c>g)` when `c` holds no '$'. */
  lemma ExpandTail(c: string, m: string, g: string, b: string, a: string)
    requires NoDollar(c)
    ensures Substitute(c + ("$1" + ")"), m, g, b, a) == c + (g + ")")
  {
    SubstituteLiteral(c, "$1" + ")", m, g, b, a);
    SubstituteGroup(")", m, g, b, a);
    SubstituteLiteral(")", "", m, g, b, a);
    assert ")" + "" == ")";
  }

  /** The template's head `![$1](assets/` followed by `rest`. */
  lemma ExpandHead(rest: string, m: string, g: string, b: string, a: string)
    ensures Substitute("![" + ("$1" + ("](assets/" + rest)), m, g, b, a)
         == "![" + (g + ("](assets/" + Substitute(rest, m, g, b, a)))
  {
    SubstituteLiteral("![", "$1" + ("](assets/" + rest), m, g, b, a);
    SubstituteGroup("](assets/" + rest, m, g, b, a);
    SubstituteLiteral("](assets/", rest, m, g, b, a);
  }

  /** With a '$'-free clean path the template expands to the intended link. */
  lemma ExpandTemplate(c: string, m: string, g: string, b: string, a: string)
    requires NoDollar(c)
    ensures Substitute(LinkTemplate(c), m, g, b, a) == AssetLink(g, c)
  {
    ExpandHead(c + ("$1" + ")"), m, g, b, a);
    ExpandTail(c, m, g, b, a);
  }

  /**
   * A clean image path `c1 + "$$" + c2` (no other '$') comes out of the
   * source's rewrite as `c1 + "$" + c2`: the link loses a '$' and no longer
   * names the image file that was written.
   */
  lemma DoubleDollarLosesDollar(c1: string, c2: string, m: string, g: string, b: string, a: string)
    requires NoDollar(c1) && NoDollar(c2)
    ensures Substitute(LinkTemplate(c1 + ("$$" + c2)), m, g, b, a) == AssetLink(g, c1 + ("$" + c2))
    ensures AssetLink(g, c1 + ("$" + c2)) != AssetLink(g, c1 + ("$$" + c2))
  {
    var c := c1 + ("$$" + c2);
    ExpandHead(c + ("$1" + ")"), m, g, b, a);
    ExpandDoubleDollarTail(c1, c2, m, g, b, a);
    assert |AssetLink(g, c1 + ("$" + c2))| + 1 == |AssetLink(g, c1 + ("$$" + c2))|;
  }

  /** The tail `<c1>$$<c2>$1)` expands to `<c1>$<c2>g)` when `c1` and `c2` hold no '$'. */
  lemma ExpandDoubleDollarTail(c1: string, c2: string, m: string, g: string, b: string, a: string)
    requires NoDollar(c1) && NoDollar(c2)
    ensures Substitute((c1 + ("$$" + c2)) + ("$1" + ")"), m, g, b, a) == (c1 + ("$" + c2)) + (g + ")")
  {
    assert (c1 + ("$$" + c2)) + ("$1" + ")") == c1 + ("$$" + (c2 + ("$1" + ")")));
    SubstituteLiteral(c1, "$$" + (c2 + ("$1" + ")")), m, g, b, a);
    SubstituteDollar(c2 + ("$1" + ")"), m, g, b, a);
    ExpandTail(c2, m, g, b, a);
  }

  // ---------------------------------------------------------------------
  // Whole texts, line by line
  // ---------------------------------------------------------------------

  /** What a global replace does to one line, given the line's offset in the text. */
  type LineMap = (nat, string) -> string

  function StripAt(off: nat, line: string): string {
    StripLine(line)
  }

  function RewriteAt(clean: string): LineMap {
    (off: nat, line: string) => RewriteLine(line, clean)
  }

  function AsWrittenAt(full: string, tmpl: string): LineMap {
    (off: nat, line: string) => RewriteLineAsWritten(full, off, line, tmpl)
  }

  /**
   * Applies `f` to every line of `s` (the maximal terminator-free pieces),
   * keeping the terminators; `off` is the offset of `s` in the whole text.
   */
  function MapLines(s: string, off: nat, f: LineMap): string
    decreases |s|
  {
    var t := LineEnd(s);
    if t < |s| then f(off, s[..t]) + [s[t]] + MapLines(s[t + 1..], off + t + 1, f)
    else f(off, s)
  }

  /** A text of one line is handed to the line operation whole. */
  lemma MapLinesOneLine(s: string, off: nat, f: LineMap)
    requires SingleLine(s)
    ensures MapLines(s, off, f) == f(off, s)
  {
    LineEndOfSingleLine(s, []);
    assert s + [] == s;
  }

  /** A text is processed line by line: the first line, its terminator, then the rest. */
  lemma MapLinesStep(x: string, c: char, y: string, off: nat, f: LineMap)
    requires SingleLine(x) && IsLineTerminator(c)
    ensures MapLines(x + [c] + y, off, f) == f(off, x) + [c] + MapLines(y, off + |x| + 1, f)
  {
    var s := x + [c] + y;
    LineEndOfSingleLine(x, [c] + y);
    assert s == x + ([c] + y);
    assert s[..|x|] == x && s[|x|] == c && s[|x| + 1..] == y;
  }

  /** `markdown.replace(/!\[.*\]\(.*\)/g, '')`. */
  function StripRefs(md: string): (r: string)
    ensures RefFree(r)
  {
    StrippedLinesRefFree(md);
    MapLines(md, 0, StripAt)
  }

  /**
   * `markdown.replace(/!\[.*\]\((.*)\)/g, '![$1](assets/<clean>$1)')` with
   * `<clean>` taken literally: the intended rewrite (see `RewriteRefsAsWritten`).
   */
  function RewriteRefs(md: string, clean: string): (r: string)
    ensures SingleLine(md) ==> r == RewriteLine(md, clean)
  {
    if SingleLine(md) then MapLinesOneLine(md, 0, RewriteAt(clean)); MapLines(md, 0, RewriteAt(clean))
    else MapLines(md, 0, RewriteAt(clean))
  }

  /**
   * `markdown.replace(/!\[.*\]\((.*)\)/g, `![$1](assets/${clean}$1)`)` as
   * written; when the clean image path holds no '$' it is the intended rewrite.
   */
  function RewriteRefsAsWritten(md: string, clean: string): (r: string)
    ensures NoDollar(clean) ==> r == RewriteRefs(md, clean)
  {
    if NoDollar(clean) then AsWrittenLinesWithoutDollar(md, clean); MapLines(md, 0, AsWrittenAt(md, LinkTemplate(clean)))
    else MapLines(md, 0, AsWrittenAt(md, LinkTemplate(clean)))
  }

  /** No match of the image-reference pattern lies in `line`. */
  ghost predicate NoRefIn(line: string) {
    forall i, a, k :: !RefAt(line, i, a, k)
  }

  /** Every line of the text is free of image references. */
  ghost predicate RefFree(s: string)
    decreases |s|
  {
    var t := LineEnd(s);
    NoRefIn(s[..t]) && (t < |s| ==> RefFree(s[t + 1..]))
  }

  /** Two line maps that agree on every line map every text alike. */
  lemma {:induction false} MapLinesAgree(s: string, off: nat, f: LineMap, h: LineMap)
    requires forall o: nat, l: string | SingleLine(l) :: f(o, l) == h(o, l)
    ensures MapLines(s, off, f) == MapLines(s, off, h)
    decreases |s|
  {
    var t := LineEnd(s);
    var line := s[..t];
    assert f(off, line) == h(off, line);
    if t < |s| {
      MapLinesAgree(s[t + 1..], off + t + 1, f, h);
    }
  }

  /** One reference-free line, a terminator and a reference-free rest make a reference-free text. */
  lemma RefFreeStep(x: string, c: char, y: string)
    requires SingleLine(x) && NoRefIn(x) && IsLineTerminator(c) && RefFree(y)
    ensures RefFree(x + [c] + y)
  {
    var r := x + [c] + y;
    LineEndOfSingleLine(x, [c] + y);
    assert r == x + ([c] + y);
    assert r[..|x|] == x && r[|x| + 1..] == y;
  }

  /** A single reference-free line is a reference-free text. */
  lemma RefFreeLine(x: string)
    requires SingleLine(x) && NoRefIn(x)
    ensures RefFree(x)
  {
    LineEndOfSingleLine(x, []);
    assert x + [] == x;
    assert x[..|x|] == x;
  }

  /** A line map whose every output is one line without references gives a reference-free text. */
  lemma {:induction false} MapLinesRefFree(s: string, off: nat, f: LineMap)
    requires forall o: nat, l: string | SingleLine(l) :: SingleLine(f(o, l)) && NoRefIn(f(o, l))
    ensures RefFree(MapLines(s, off, f))
    decreases |s|
  {
    var t := LineEnd(s);
    var x := f(off, s[..t]);
    assert SingleLine(x) && NoRefIn(x);
    if t < |s| {
      MapLinesRefFree(s[t + 1..], off + t + 1, f);
      RefFreeStep(x, s[t], MapLines(s[t + 1..], off + t + 1, f));
    } else {
      assert s[..t] == s;
      RefFreeLine(x);
    }
  }

  /** In 'text' mode no image reference survives on any line. */
  lemma StrippedLinesRefFree(md: string)
    ensures RefFree(MapLines(md, 0, StripAt))
  {
    forall o: nat, l: string | SingleLine(l) ensures SingleLine(StripAt(o, l)) && NoRefIn(StripAt(o, l)) {
      StripLineRefFree(l);
      StripLineSingleLine(l);
    }
    MapLinesRefFree(md, 0, StripAt);
  }

  /**
   * A plain reference `![alt](p)` on a line: the link becomes
   * `![p](assets/<clean>p)` and the text around it is kept.
   */
  lemma RewriteSimpleRef(pre: string, alt: string, p: string, post: string, clean: string)
    requires SingleLine(pre + alt + p + post)
    requires forall j | 0 <= j :: !PairAt(pre, j, '!', '[')
    requires forall j | 0 <= j :: !PairAt(p, j, ']', '(')
    requires forall j | 0 <= j < |post| :: post[j] != ')'
    ensures RewriteRefs(pre + "![" + alt + "](" + p + ")" + post, clean)
         == pre + AssetLink(p, clean) + post
  {
    var line := pre + "![" + alt + "](" + p + ")" + post;
    var i, a, k := |pre|, |pre| + 2 + |alt|, |pre| + 2 + |alt| + 2 + |p|;
    SimpleRefFound(pre, alt, p, post);
    SimpleRefPieces(pre, alt, p, post);
    assert RewriteRefs(line, clean) == RewriteLine(line, clean);
  }

  /** The pieces of `pre + "![" + alt + "](" + p + ")" + post` around the reference. */
  lemma SimpleRefPieces(pre: string, alt: string, p: string, post: string)
    ensures var line := pre + "![" + alt + "](" + p + ")" + post;
            var i, a, k := |pre|, |pre| + 2 + |alt|, |pre| + 2 + |alt| + 2 + |p|;
            line[..i] == pre && line[a + 2..k] == p && line[k + 1..] == post
  {
  }

  /** Where `FindRef` lands on a plain reference `![alt](p)`. */
  lemma SimpleRefFound(pre: string, alt: string, p: string, post: string)
    requires SingleLine(pre + alt + p + post)
    requires forall j | 0 <= j :: !PairAt(pre, j, '!', '[')
    requires forall j | 0 <= j :: !PairAt(p, j, ']', '(')
    requires forall j | 0 <= j < |post| :: post[j] != ')'
    ensures var line := pre + "![" + alt + "](" + p + ")" + post;
      var i, a := |pre|, |pre| + 2 + |alt|;
      FindRef(line) == Some((i, a, a + 2 + |p|)) && SingleLine(line)
  {
    var line := pre + "![" + alt + "](" + p + ")" + post;
    var i, a, k := |pre|, |pre| + 2 + |alt|, |pre| + 2 + |alt| + 2 + |p|;
    assert line[i] == '!' && line[i + 1] == '[' && line[a] == ']' && line[a + 1] == '(' && line[k] == ')';
    assert RefAt(line, i, a, k);
    forall j | k < j < |line| ensures line[j] != ')' { assert line[j] == post[j - k - 1]; }
    forall j | a < j <= k - 2 ensures !PairAt(line, j, ']', '(') {
      if j == a + 1 {
        assert line[j] == '(';
      } else {
        assert line[j] == p[j - a - 2] && line[j + 1] == p[j + 1 - a - 2];
        assert !PairAt(p, j - a - 2, ']', '(');
      }
    }
    forall j | 0 <= j < i ensures !PairAt(line, j, '!', '[') {
      if j + 1 < i {
        assert line[j] == pre[j] && line[j + 1] == pre[j + 1];
        assert !PairAt(pre, j, '!', '[');
      } else {
        assert line[j + 1] == '!';
      }
    }
    var u := pre + alt + p + post;
    forall j | 0 <= j < |line| ensures !IsLineTerminator(line[j]) {
      if j < i { assert line[j] == u[j]; }
      else if i + 2 <= j < a { assert line[j] == u[j - 2]; }
      else if a + 2 <= j < k { assert line[j] == u[j - 4]; }
      else if k < j { assert line[j] == u[j - 5]; }
    }
  }

  /** When the clean image path holds no '$', the source's rewrite is the intended one, line by line. */
  lemma AsWrittenLinesWithoutDollar(md: string, clean: string)
    requires NoDollar(clean)
    ensures MapLines(md, 0, AsWrittenAt(md, LinkTemplate(clean))) == MapLines(md, 0, RewriteAt(clean))
  {
    var tmpl := LinkTemplate(clean);
    forall m, g, b, a ensures Substitute(tmpl, m, g, b, a) == AssetLink(g, clean) {
      ExpandTemplate(clean, m, g, b, a);
    }
    forall o: nat, l: string | SingleLine(l)
      ensures AsWrittenAt(md, tmpl)(o, l) == RewriteAt(clean)(o, l)
    {
      AsWrittenAgreesLine(md, o, l, tmpl, clean);
    }
    MapLinesAgree(md, 0, AsWrittenAt(md, tmpl), RewriteAt(clean));
  }

  lemma AsWrittenAgreesLine(full: string, off: nat, line: string, tmpl: string, clean: string)
    requires forall m, g, b, a :: Substitute(tmpl, m, g, b, a) == AssetLink(g, clean)
    ensures RewriteLineAsWritten(full, off, line, tmpl) == RewriteLine(line, clean)
  {
  }

  /**
   * The source's rewrite on a plain reference `![alt](p)` when the clean image
   * path is `c1 + "$$" + c2`: the link written names `c1 + "$" + c2`, not the
   * clean path the intended rewrite uses.
   */
  lemma DollarPathBreaksLink(pre: string, alt: string, p: string, post: string, c1: string, c2: string)
    requires SingleLine(pre + alt + p + post)
    requires forall j | 0 <= j :: !PairAt(pre, j, '!', '[')
    requires forall j | 0 <= j :: !PairAt(p, j, ']', '(')
    requires forall j | 0 <= j < |post| :: post[j] != ')'
    requires NoDollar(c1) && NoDollar(c2)
    ensures var line := pre + "![" + alt + "](" + p + ")" + post;
      RewriteRefsAsWritten(line, c1 + ("$$" + c2)) == pre + AssetLink(p, c1 + ("$" + c2)) + post
      && RewriteRefs(line, c1 + ("$$" + c2)) == pre + AssetLink(p, c1 + ("$$" + c2)) + post
      && RewriteRefsAsWritten(line, c1 + ("$$" + c2)) != RewriteRefs(line, c1 + ("$$" + c2))
  {
    var line := pre + "![" + alt + "](" + p + ")" + post;
    var clean := c1 + ("$$" + c2);
    var i, a := |pre|, |pre| + 2 + |alt|;
    var k := a + 2 + |p|;
    SimpleRefFound(pre, alt, p, post);
    RewriteSimpleRef(pre, alt, p, post, clean);
    assert line[..i] == pre && line[a + 2..k] == p && line[k + 1..] == post;
    var tmpl := LinkTemplate(clean);
    MapLinesOneLine(line, 0, AsWrittenAt(line, tmpl));
    var before, after := line[..i], line[k + 1..];
    LinkTemplateWithDoubleDollar(tmpl, c1, c2, line[i..k + 1], p, before, after);
    assert RewriteLineAsWritten(line, 0, line, tmpl) == pre + AssetLink(p, c1 + ("$" + c2)) + post;
    assert |pre + AssetLink(p, c1 + ("$" + c2)) + post| + 1 == |pre + AssetLink(p, clean) + post|;
  }

  lemma LinkTemplateWithDoubleDollar(tmpl: string, c1: string, c2: string, m: string, g: string, b: string, a: string)
    requires NoDollar(c1) && NoDollar(c2)
    requires tmpl == LinkTemplate(c1 + ("$$" + c2))
    ensures Substitute(tmpl, m, g, b, a) == AssetLink(g, c1 + ("$" + c2))
  {
    DoubleDollarLosesDollar(c1, c2, m, g, b, a);
  }

  /** The name that shows it: a PDF called "a$$b.pdf" has the clean image path "a$$b_". */
  lemma DollarNameExample()
    ensures CleanImagePath("a$$b.pdf") == "a" + ("$$" + "b_")
  {
    ReplacePdfOfPdfName("a$$b", "_");
    assert "a$$b" + ".pdf" == "a$$b.pdf";
    assert "a$$b" + "_" == "a$$b_" == "a" + ("$$" + "b_");
    EncodeSpacesIdentity("a$$b_");
  }
}
