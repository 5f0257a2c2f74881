/**
 * Hand-built `multipart/form-data` bodies, shared by every generation of the
 * plugin: a list of string and byte parts, each string encoded as UTF-8, the
 * encodings laid end to end in one buffer by a running offset.
 *
 * The framing follows section 5.1.1 of RFC 2046 (a part opens with
 * "--" boundary CRLF, the body closes with "--" boundary "--" CRLF) and the
 * part headers follow section 4.2 of RFC 7578 (`Content-Disposition:
 * form-data; name="..."`). The boundary is a parameter.
 */
module Multipart {
  import opened Wrappers
  import opened Text

  /** One entry of the `parts` array: a string, or the raw bytes of a file. */
  datatype Part = TextPart(s: string) | BytePart(b: seq<byte>)

  /** `typeof part === 'string' ? new TextEncoder().encode(part) : part`. */
  function PartBytes(p: Part): seq<byte> {
    match p
    case TextPart(s) => Encode(s)
    case BytePart(b) => b
  }

  /** The parts' bytes laid end to end: what the body holds once filled. */
  function Flatten(parts: seq<Part>): seq<byte> {
    if |parts| == 0 then [] else Flatten(parts[..|parts| - 1]) + PartBytes(Last(parts))
  }

  /** `bodyParts.reduce((acc, part) => acc + part.byteLength, 0)`: the sum of the part lengths. */
  function TotalLength(parts: seq<Part>): nat {
    if |parts| == 0 then 0 else TotalLength(parts[..|parts| - 1]) + |PartBytes(Last(parts))|
  }

  lemma {:induction false} FlattenLength(parts: seq<Part>)
    ensures |Flatten(parts)| == TotalLength(parts)
    decreases |parts|
  {
    if |parts| > 0 {
      FlattenLength(parts[..|parts| - 1]);
    }
  }

  /** The bytes of the first k parts are a prefix of the whole body. */
  lemma {:induction false} FlattenPrefix(parts: seq<Part>, k: nat)
    requires k <= |parts|
    ensures Flatten(parts[..k]) <= Flatten(parts)
    decreases |parts|
  {
    if k < |parts| {
      var init := parts[..|parts| - 1];
      assert parts[..k] == init[..k];
      FlattenPrefix(init, k);
    } else {
      assert parts[..k] == parts;
    }
  }

  /** The bytes of two lists of parts, one after the other. */
  lemma {:induction false} FlattenAppend(a: seq<Part>, b: seq<Part>)
    ensures Flatten(a + b) == Flatten(a) + Flatten(b)
    decreases |b|
  {
    if |b| == 0 {
      assert a + b == a;
    } else {
      var b' := b[..|b| - 1];
      assert (a + b)[..|a + b| - 1] == a + b';
      assert Last(a + b) == Last(b);
      FlattenAppend(a, b');
    }
  }

  /**
   * Each part's bytes sit at its running offset, in order: the offset of
   * part i is the total length of the parts before it.
   */
  lemma PartAtOffset(parts: seq<Part>, i: nat)
    requires i < |parts|
    ensures TotalLength(parts[..i]) + |PartBytes(parts[i])| <= TotalLength(parts) == |Flatten(parts)|
    ensures Flatten(parts)[TotalLength(parts[..i])..TotalLength(parts[..i]) + |PartBytes(parts[i])|]
            == PartBytes(parts[i])
  {
    var pre := parts[..i + 1];
    assert pre[..i] == parts[..i];
    assert Last(pre) == parts[i];
    FlattenPrefix(parts, i + 1);
    FlattenLength(parts[..i]);
    FlattenLength(parts);
  }

  /** String parts, one per string. */
  function Texts(ss: seq<string>): (r: seq<Part>)
    ensures |r| == |ss| && forall i | 0 <= i < |ss| :: r[i] == TextPart(ss[i])
  {
    seq(|ss|, i requires 0 <= i < |ss| => TextPart(ss[i]))
  }

  lemma TextsAppend(a: seq<string>, b: seq<string>)
    ensures Texts(a + b) == Texts(a) + Texts(b)
  {
  }

  /** The strings joined with nothing between them. */
  function Concat(ss: seq<string>): string {
    if |ss| == 0 then "" else Concat(ss[..|ss| - 1]) + Last(ss)
  }

  /** A run of string parts occupies the encoding of their concatenation. */
  lemma {:induction false} FlattenTexts(ss: seq<string>)
    ensures Flatten(Texts(ss)) == Encode(Concat(ss))
    decreases |ss|
  {
    if |ss| > 0 {
      var init := ss[..|ss| - 1];
      assert Texts(ss)[..|ss| - 1] == Texts(init);
      FlattenTexts(init);
      EncodeAppend(Concat(init), Last(ss));
    }
  }

  lemma {:induction false} ConcatFirst(first: string, ss: seq<string>)
    ensures Concat([first] + ss) == first + Concat(ss)
    decreases |ss|
  {
    if |ss| == 0 {
      assert [first] + ss == [first];
      assert [first][..0] == [];
    } else {
      var init := ss[..|ss| - 1];
      assert ([first] + ss)[..|ss|] == [first] + init;
      ConcatFirst(first, init);
    }
  }

  lemma ConcatAround(first: string, ss: seq<string>, last: string)
    ensures Concat([first] + ss + [last]) == first + Concat(ss) + last
  {
    var all := [first] + ss + [last];
    assert all[..|all| - 1] == [first] + ss;
    ConcatFirst(first, ss);
  }

  /**
   * A body made of a file part's header, the file's bytes and then text:
   * the bytes sit unchanged right after the encoded header.
   */
  lemma FileBodyLayout(head: string, content: seq<byte>, tail: seq<string>)
    ensures Flatten([TextPart(head), BytePart(content)] + Texts(tail)) == Encode(head) + content + Encode(Concat(tail))
  {
    FlattenAppend([TextPart(head), BytePart(content)], Texts(tail));
    FlattenHeadAndBytes(head, content);
    FlattenTexts(tail);
  }

  lemma FlattenHeadAndBytes(head: string, content: seq<byte>)
    ensures Flatten([TextPart(head), BytePart(content)]) == Encode(head) + content
  {
    var a := [TextPart(head), BytePart(content)];
    var b := [TextPart(head)];
    assert a[..|a| - 1] == b;
    assert b[..|b| - 1] == [];
    assert Flatten(b) == Encode(head);
  }

  // ---------------------------------------------------------------------
  // The offset copy
  // ---------------------------------------------------------------------

  /** `body.set(part, offset)`: copies `part` into `body` starting at `offset`. */
  method SetAt(body: array<byte>, part: seq<byte>, offset: nat)
    requires offset + |part| <= body.Length
    modifies body
    ensures body[..] == old(body[..offset]) + part + old(body[offset + |part|..])
  {
    var j := 0;
    while j < |part|
      invariant 0 <= j <= |part|
      invariant body[..offset] == old(body[..offset])
      invariant body[offset..offset + j] == part[..j]
      invariant body[offset + |part|..] == old(body[offset + |part|..])
    {
      body[offset + j] := part[j];
      j := j + 1;
    }
  }

  /**
   * `combinePartsToArrayBuffer(parts)` and the inline copies of it: the
   * total length by summing, a fresh buffer of that length, then each part
   * copied at the running offset.
   */
  method Combine(parts: seq<Part>) returns (body: array<byte>)
    ensures fresh(body)
    ensures body.Length == TotalLength(parts)
    ensures body[..] == Flatten(parts)
  {
    var bodyParts := seq(|parts|, i requires 0 <= i < |parts| => PartBytes(parts[i]));
    var bodyLength := 0;
    for i := 0 to |bodyParts|
      invariant bodyLength == TotalLength(parts[..i])
    {
      assert parts[..i + 1][..i] == parts[..i];
      bodyLength := bodyLength + |bodyParts[i]|;
    }
    assert parts[..|parts|] == parts;
    body := new byte[bodyLength];
    FlattenLength(parts);
    var offset := 0;
    for i := 0 to |bodyParts|
      invariant offset == TotalLength(parts[..i]) <= body.Length
      invariant body[..offset] == Flatten(parts[..i])
    {
      FlattenStep(parts, i);
      FlattenLength(parts[..i + 1]);
      FlattenPrefix(parts, i + 1);
      FlattenLength(parts);
      ghost var before := body[..];
      SetAt(body, bodyParts[i], offset);
      Halves(before[..offset] + bodyParts[i], before[offset + |bodyParts[i]|..]);
      offset := offset + |bodyParts[i]|;
    }
  }

  /** One more part: its bytes follow those of the parts before it. */
  lemma FlattenStep(parts: seq<Part>, i: nat)
    requires i < |parts|
    ensures Flatten(parts[..i + 1]) == Flatten(parts[..i]) + PartBytes(parts[i])
    ensures TotalLength(parts[..i + 1]) == TotalLength(parts[..i]) + |PartBytes(parts[i])|
  {
    assert parts[..i + 1][..i] == parts[..i];
  }

  // ---------------------------------------------------------------------
  // Framing
  // ---------------------------------------------------------------------

  /** The dash-boundary line that opens every part. */
  function Delimiter(boundary: string): string {
    "--" + boundary + "\r\n"
  }

  /** The close delimiter that ends the body. */
  function Close(boundary: string): string {
    "--" + boundary + "--\r\n"
  }

  /** The header block of a file part; the file's bytes follow it. */
  function FileHead(boundary: string, field: string, fileName: string, contentType: string): string {
    Delimiter(boundary)
    + "Content-Disposition: form-data; name=\"" + field + "\"; filename=\"" + fileName + "\"\r\n"
    + "Content-Type: " + contentType + "\r\n\r\n"
  }

  const FieldIntro := "Content-Disposition: form-data; name=\""

  /** A whole text field part: header block, the value, and the CRLF that ends it. */
  function FieldPart(boundary: string, name: string, value: string): string {
    Delimiter(boundary) + FieldIntro + name + "\"\r\n\r\n" + value + "\r\n"
  }

  /**
   * Reads a text field part back: the name up to the first quote after the
   * header introduction, then an empty line, the value, and the final CRLF.
   */
  function ParseFieldPart(boundary: string, s: string): Option<(string, string)> {
    var head := Delimiter(boundary) + FieldIntro;
    if !StartsWith(s, head) then None
    else
      var rest := s[|head|..];
      if '"' !in rest then None
      else
        var q := IndexOf(rest, '"');
        var after := rest[q + 1..];
        if |after| < 6 || after[..4] != "\r\n\r\n" || after[|after| - 2..] != "\r\n" then None
        else Some((rest[..q], after[4..|after| - 2]))
  }

  /**
   * The field framing is unambiguous: the name (free of quotes, as every
   * field name the plugin sends is) and the value are read back from the part.
   */
  lemma ParseFieldPartOfFieldPart(boundary: string, name: string, value: string)
    requires '"' !in name
    ensures ParseFieldPart(boundary, FieldPart(boundary, name, value)) == Some((name, value))
  {
    var head := Delimiter(boundary) + FieldIntro;
    var after := "\r\n\r\n" + value + "\r\n";
    var rest := name + ['"'] + after;
    assert FieldPart(boundary, name, value) == head + rest;
    Halves(head, rest);
    NameThenQuote(name, after);
    ValueFraming(value);
  }

  /** The name is cut off at the first quote, which is the one after it. */
  lemma NameThenQuote(name: string, after: string)
    requires '"' !in name
    ensures var rest := name + ['"'] + after;
            '"' in rest && IndexOf(rest, '"') == |name| && rest[..|name|] == name && rest[|name| + 1..] == after
  {
    var rest := name + ['"'] + after;
    assert rest == (name + ['"']) + after == name + (['"'] + after);
    Halves(name + ['"'], after);
    Halves(name, ['"'] + after);
    assert rest[|name|] == '"';
    IndexOfUnique(rest, '"', |name|);
  }

  /** The empty line before the value and the CRLF after it are recognised and stripped. */
  lemma ValueFraming(value: string)
    ensures var after := "\r\n\r\n" + value + "\r\n";
            && |after| >= 6 && after[..4] == "\r\n\r\n" && after[|after| - 2..] == "\r\n"
            && after[4..|after| - 2] == value
  {
    var crlf2, crlf := "\r\n\r\n", "\r\n";
    var after := crlf2 + value + crlf;
    assert after == crlf2 + (value + crlf);
    Halves(crlf2, value + crlf);
    Halves(crlf2 + value, crlf);
    Halves(value, crlf);
    assert after[4..|after| - 2] == (value + crlf)[..|value|];
  }

  /** A file part's header opens with the delimiter and ends with the empty line before the bytes. */
  lemma FileHeadFraming(boundary: string, field: string, fileName: string, contentType: string)
    ensures StartsWith(FileHead(boundary, field, fileName, contentType), Delimiter(boundary))
    ensures EndsWith(FileHead(boundary, field, fileName, contentType), "\r\n\r\n")
  {
  }
}
