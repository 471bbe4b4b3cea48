/**
 * RS_Font: a LibreCAD LFF stroke font. Reading the file fills the metadata
 * and a raw table from a character to the lines of its glyph block; building
 * a glyph turns those lines into polygons, resolving "C" lines that reuse
 * another glyph. The file is given as the sequence of its lines. Numbers
 * (coordinates, spacings, bulges) are kept as the text the file holds: the
 * conversion to floating point is not part of this model.
 */
module LffFonts {

  import opened Primitives
  import opened Strings

  /** QChar: a 16-bit code unit. */
  type QChar = c: int | 0 <= c < 0x10000

  /** A floating-point setting: its built-in default, or the text of the header that set it. */
  datatype Number = Literal(value: real) | Parsed(text: string)

  /** A polygon vertex as its two coordinate tokens. */
  datatype Coord = Coord(x: string, y: string)

  /** The bulge of a vertex: the text after its 'A' marker, or none (bulge 0). */
  datatype Bulge = NoBulge | BulgeText(text: string)

  /** A segment to end whose arc angle is 4 * atan(bulge). */
  datatype Segment = Segment(end: Coord, bulge: Bulge)

  datatype Polygon = Polygon(start: Coord, segments: seq<Segment>)

  /** A glyph: its entries, where None is the null polygon of a stroke line without a usable vertex. */
  type Letter = seq<Option<Polygon>>

  type RawTable = map<QChar, seq<string>>
  type LetterTable = map<QChar, Letter>

  /** The metadata readLFF fills in. */
  datatype FontInfo = FontInfo(
    letterSpacing: Number,
    wordSpacing: Number,
    lineSpacingFactor: Number,
    authors: seq<string>,
    names: seq<string>,
    license: string,
    created: string,
    encoding: string)

  /** The constructor's metadata: spacings 3.0, 6.75 and 1.0, license "unknown", no encoding yet. */
  const InitialInfo := FontInfo(Literal(3.0), Literal(6.75), Literal(1.0), [], [], "unknown", "", "")

  // ---------------------------------------------------------------------------
  // readLFF

  /**
   * A '#' line without its '#' is a header when it has at least two
   * ':'-separated non-empty parts: the first, trimmed and lower-cased, is the
   * key and the second, trimmed, its value.
   */
  function HeaderEntry(rest: string): (e: Option<(string, string)>)
    ensures e.Some? <==> |SplitSkipEmpty(rest, ':')| >= 2
    ensures e.Some? ==> e.value == (LowerAscii(Trimmed(SplitSkipEmpty(rest, ':')[0])), Trimmed(SplitSkipEmpty(rest, ':')[1]))
  {
    var lst := SplitSkipEmpty(rest, ':');
    if |lst| < 2 then None else Some((LowerAscii(Trimmed(lst[0])), Trimmed(lst[1])))
  }

  /** The keys readLFF knows. */
  datatype HeaderKey =
    LetterSpacing | WordSpacing | LineSpacingFactor | Author | Name | License | Encoding | Created | Unknown

  /** The chain of key comparisons of readLFF, on the lower-cased identifier. */
  function KeyOf(identifier: string): HeaderKey
  {
    if identifier == "letterspacing" then LetterSpacing
    else if identifier == "wordspacing" then WordSpacing
    else if identifier == "linespacingfactor" then LineSpacingFactor
    else if identifier == "author" then Author
    else if identifier == "name" then Name
    else if identifier == "license" then License
    else if identifier == "encoding" then Encoding
    else if identifier == "created" then Created
    else Unknown
  }

  /** Each known key is recognised by exactly its own lower-case name. */
  lemma KeyOfNames(identifier: string)
    ensures KeyOf(identifier) == LetterSpacing <==> identifier == "letterspacing"
    ensures KeyOf(identifier) == WordSpacing <==> identifier == "wordspacing"
    ensures KeyOf(identifier) == LineSpacingFactor <==> identifier == "linespacingfactor"
    ensures KeyOf(identifier) == Author <==> identifier == "author"
    ensures KeyOf(identifier) == Name <==> identifier == "name"
    ensures KeyOf(identifier) == License <==> identifier == "license"
    ensures KeyOf(identifier) == Encoding <==> identifier == "encoding"
    ensures KeyOf(identifier) == Created <==> identifier == "created"
  {
  }

  /** A '#' line read as a known or unknown key and its value, when it is a header. */
  function Entry(rest: string): Option<(HeaderKey, string)>
  {
    match HeaderEntry(rest)
    case None => None
    case Some((identifier, value)) => Some((KeyOf(identifier), value))
  }

  /** What a header does: author and name headers append, the other known keys overwrite. */
  function ApplyEntry(info: FontInfo, e: Option<(HeaderKey, string)>): FontInfo
  {
    match e
    case None => info
    case Some((key, value)) =>
      match key
      case LetterSpacing => info.(letterSpacing := Parsed(value))
      case WordSpacing => info.(wordSpacing := Parsed(value))
      case LineSpacingFactor => info.(lineSpacingFactor := Parsed(value))
      case Author => info.(authors := info.authors + [value])
      case Name => info.(names := info.names + [value])
      case License => info.(license := value)
      case Encoding => info.(encoding := value)
      case Created => info.(created := value)
      case Unknown => info
  }

  /** The metadata after one '#' line; a non-header and an unknown key change nothing. */
  function ApplyHeader(info: FontInfo, rest: string): FontInfo
  {
    ApplyEntry(info, Entry(rest))
  }

  /** The character a '[' line announces: its first run of hexadecimal digits, at most five, as a 16-bit code. */
  function GlyphCode(cap: string): (c: QChar)
    requires AllHex(cap)
    ensures HexValue(cap) < 0x10000 ==> c == HexValue(cap)
    ensures (HexValue(cap) - c) % 0x10000 == 0
  {
    HexValue(cap) % 0x10000
  }

  /** The index of the first empty line at or after k, or the end of the file. */
  function BodyEnd(lines: seq<string>, k: nat): (e: nat)
    requires k <= |lines|
    ensures k <= e <= |lines|
    ensures forall m :: k <= m < e ==> lines[m] != []
    ensures e < |lines| ==> lines[e] == []
    decreases |lines| - k
  {
    if k == |lines| || lines[k] == [] then k else BodyEnd(lines, k + 1)
  }

  /** The first empty line at or after k (or the end) is the only index with BodyEnd's two properties. */
  lemma BodyEndUnique(lines: seq<string>, k: nat, e: nat)
    requires k <= e <= |lines|
    requires forall m :: k <= m < e ==> lines[m] != []
    requires e < |lines| ==> lines[e] == []
    ensures BodyEnd(lines, k) == e
    decreases e - k
  {
    if k < e {
      BodyEndUnique(lines, k + 1, e);
    }
  }

  /** The line after the record that starts at line i: a glyph block runs to its empty line. */
  function Next(lines: seq<string>, i: nat): (j: nat)
    requires i < |lines|
    ensures i < j <= |lines|
  {
    var line := lines[i];
    if line != [] && line[0] == '[' && HexCapture(line).Some? then
      var e := BodyEnd(lines, i + 1);
      if e < |lines| then e + 1 else e
    else i + 1
  }

  /**
   * One record: an empty line or an unknown line changes nothing, a '#' line
   * is a header, a '[' line with a code stores its body if that is non-empty.
   */
  function Step(lines: seq<string>, i: nat, info: FontInfo, raw: RawTable): (FontInfo, RawTable)
    requires i < |lines|
  {
    var line := lines[i];
    if line == [] then (info, raw)
    else if line[0] == '#' then (ApplyHeader(info, line[1..]), raw)
    else if line[0] == '[' && HexCapture(line).Some? then
      var body := lines[i + 1..BodyEnd(lines, i + 1)];
      (info, if body != [] then raw[GlyphCode(HexCapture(line).value) := body] else raw)
    else (info, raw)
  }

  /** The loop of readLFF from line i on, with the metadata and raw table read so far. */
  function Scan(lines: seq<string>, i: nat, info: FontInfo, raw: RawTable): (FontInfo, RawTable)
    requires i <= |lines|
    decreases |lines| - i
  {
    if i == |lines| then (info, raw)
    else
      var s := Step(lines, i, info, raw);
      Scan(lines, Next(lines, i), s.0, s.1)
  }

  lemma ScanUnfold(lines: seq<string>, i: nat, info: FontInfo, raw: RawTable)
    requires i < |lines|
    ensures Scan(lines, i, info, raw) ==
      Scan(lines, Next(lines, i), Step(lines, i, info, raw).0, Step(lines, i, info, raw).1)
  {
  }

  /** What readLFF stores: every body is non-empty and holds no empty line. */
  predicate WellFormedRaw(raw: RawTable)
  {
    forall c :: c in raw ==> raw[c] != [] && forall k :: 0 <= k < |raw[c]| ==> raw[c][k] != []
  }

  lemma StepWellFormed(lines: seq<string>, i: nat, info: FontInfo, raw: RawTable)
    requires i < |lines| && WellFormedRaw(raw)
    ensures WellFormedRaw(Step(lines, i, info, raw).1)
    ensures raw.Keys <= Step(lines, i, info, raw).1.Keys
  {
  }

  lemma {:induction false} ScanWellFormed(lines: seq<string>, i: nat, info: FontInfo, raw: RawTable)
    requires i <= |lines| && WellFormedRaw(raw)
    ensures WellFormedRaw(Scan(lines, i, info, raw).1)
    ensures raw.Keys <= Scan(lines, i, info, raw).1.Keys
    decreases |lines| - i
  {
    if i < |lines| {
      var s := Step(lines, i, info, raw);
      StepWellFormed(lines, i, info, raw);
      ScanWellFormed(lines, Next(lines, i), s.0, s.1);
    }
  }

  /**
   * A glyph block: the lines after a '[' line up to the first empty line (or
   * the end of the file) are its body, stored under its code when non-empty;
   * reading resumes after the empty line.
   */
  lemma GlyphBlock(lines: seq<string>, i: nat, e: nat, info: FontInfo, raw: RawTable)
    requires i < e <= |lines|
    requires lines[i] != [] && lines[i][0] == '[' && HexCapture(lines[i]).Some?
    requires forall m :: i + 1 <= m < e ==> lines[m] != []
    requires e < |lines| ==> lines[e] == []
    ensures Next(lines, i) == if e < |lines| then e + 1 else e
    ensures var body := lines[i + 1..e];
      Step(lines, i, info, raw) ==
      (info, if body != [] then raw[GlyphCode(HexCapture(lines[i]).value) := body] else raw)
  {
    BodyEndUnique(lines, i + 1, e);
  }

  /** The '#' lines readLFF meets outside glyph bodies, without their '#', in file order. */
  function HeaderLines(lines: seq<string>, i: nat): seq<Option<(HeaderKey, string)>>
    requires i <= |lines|
    decreases |lines| - i
  {
    if i == |lines| then [] else HeaderAt(lines, i) + HeaderLines(lines, Next(lines, i))
  }

  function HeaderAt(lines: seq<string>, i: nat): seq<Option<(HeaderKey, string)>>
    requires i < |lines|
  {
    if lines[i] != [] && lines[i][0] == '#' then [Entry(lines[i][1..])] else []
  }

  /** The headers applied one after the other. */
  function FoldHeaders(info: FontInfo, hs: seq<Option<(HeaderKey, string)>>): FontInfo
    decreases |hs|
  {
    if hs == [] then info else FoldHeaders(ApplyEntry(info, hs[0]), hs[1..])
  }

  /** The values of the headers with the given key, in order. */
  function ValuesOf(hs: seq<Option<(HeaderKey, string)>>, key: HeaderKey): seq<string>
  {
    if hs == [] then [] else EntryValue(hs[0], key) + ValuesOf(hs[1..], key)
  }

  function EntryValue(e: Option<(HeaderKey, string)>, key: HeaderKey): seq<string>
  {
    if e.Some? && e.value.0 == key then [e.value.1] else []
  }

  function LastOr(vs: seq<string>, default: string): string
  {
    if vs == [] then default else vs[|vs| - 1]
  }

  function LastNumberOr(vs: seq<string>, default: Number): Number
  {
    if vs == [] then default else Parsed(vs[|vs| - 1])
  }

  lemma {:induction false} FoldHeadersAppend(info: FontInfo, a: seq<Option<(HeaderKey, string)>>, b: seq<Option<(HeaderKey, string)>>)
    ensures FoldHeaders(info, a + b) == FoldHeaders(FoldHeaders(info, a), b)
    decreases |a|
  {
    if a != [] {
      assert (a + b)[0] == a[0] && (a + b)[1..] == a[1..] + b;
      FoldHeadersAppend(ApplyEntry(info, a[0]), a[1..], b);
    } else {
      assert a + b == b;
    }
  }

  /** The metadata of a file is decided by its headers alone: readLFF applies them in file order. */
  lemma {:induction false} ScanHeaders(lines: seq<string>, i: nat, info: FontInfo, raw: RawTable)
    requires i <= |lines|
    ensures Scan(lines, i, info, raw).0 == FoldHeaders(info, HeaderLines(lines, i))
    decreases |lines| - i
  {
    if i < |lines| {
      var s := Step(lines, i, info, raw);
      ScanHeaders(lines, Next(lines, i), s.0, s.1);
      assert s.0 == FoldHeaders(info, HeaderAt(lines, i));
      FoldHeadersAppend(info, HeaderAt(lines, i), HeaderLines(lines, Next(lines, i)));
    }
  }

  lemma LastOrAppend(p: seq<string>, q: seq<string>, d: string)
    ensures LastOr(p + q, d) == LastOr(q, LastOr(p, d))
  {
    if q != [] {
      assert (p + q)[|p + q| - 1] == q[|q| - 1];
    }
  }

  lemma LastNumberAppend(p: seq<string>, q: seq<string>, d: Number)
    ensures LastNumberOr(p + q, d) == LastNumberOr(q, LastNumberOr(p, d))
  {
    if q != [] {
      assert (p + q)[|p + q| - 1] == q[|q| - 1];
    }
  }

  /** One header appends its value to the authors or the names, or to neither. */
  lemma ApplyEntryCollects(info: FontInfo, e: Option<(HeaderKey, string)>)
    ensures ApplyEntry(info, e).authors == info.authors + EntryValue(e, Author)
    ensures ApplyEntry(info, e).names == info.names + EntryValue(e, Name)
  {
    assert info.authors + [] == info.authors && info.names + [] == info.names;
  }

  /** One header, for each overwritten field. */
  lemma ApplyEntryFields(info: FontInfo, e: Option<(HeaderKey, string)>)
    ensures var r := ApplyEntry(info, e);
      && r.encoding == LastOr(EntryValue(e, Encoding), info.encoding)
      && r.license == LastOr(EntryValue(e, License), info.license)
      && r.created == LastOr(EntryValue(e, Created), info.created)
      && r.letterSpacing == LastNumberOr(EntryValue(e, LetterSpacing), info.letterSpacing)
      && r.wordSpacing == LastNumberOr(EntryValue(e, WordSpacing), info.wordSpacing)
      && r.lineSpacingFactor == LastNumberOr(EntryValue(e, LineSpacingFactor), info.lineSpacingFactor)
  {
  }

  /** The authors are every author header's value, in file order. */
  lemma {:induction false} HeadersAuthors(info: FontInfo, hs: seq<Option<(HeaderKey, string)>>)
    ensures FoldHeaders(info, hs).authors == info.authors + ValuesOf(hs, Author)
    decreases |hs|
  {
    if hs != [] {
      var h, rest := hs[0], hs[1..];
      HeadersAuthors(ApplyEntry(info, h), rest);
      ApplyEntryCollects(info, h);
      var v := EntryValue(h, Author);
      assert ValuesOf(hs, Author) == v + ValuesOf(rest, Author);
      assert info.authors + v + ValuesOf(rest, Author) == info.authors + (v + ValuesOf(rest, Author));
    } else {
      assert info.authors + [] == info.authors;
    }
  }

  /** The names are every name header's value, in file order. */
  lemma {:induction false} HeadersNames(info: FontInfo, hs: seq<Option<(HeaderKey, string)>>)
    ensures FoldHeaders(info, hs).names == info.names + ValuesOf(hs, Name)
    decreases |hs|
  {
    if hs != [] {
      var h, rest := hs[0], hs[1..];
      HeadersNames(ApplyEntry(info, h), rest);
      ApplyEntryCollects(info, h);
      var v := EntryValue(h, Name);
      assert ValuesOf(hs, Name) == v + ValuesOf(rest, Name);
      assert info.names + v + ValuesOf(rest, Name) == info.names + (v + ValuesOf(rest, Name));
    } else {
      assert info.names + [] == info.names;
    }
  }

  /** Every other setting is the value of its last header, or what it was before. */
  lemma {:induction false} HeadersOverwrite(info: FontInfo, hs: seq<Option<(HeaderKey, string)>>)
    ensures var r := FoldHeaders(info, hs);
      && r.encoding == LastOr(ValuesOf(hs, Encoding), info.encoding)
      && r.license == LastOr(ValuesOf(hs, License), info.license)
      && r.created == LastOr(ValuesOf(hs, Created), info.created)
      && r.letterSpacing == LastNumberOr(ValuesOf(hs, LetterSpacing), info.letterSpacing)
      && r.wordSpacing == LastNumberOr(ValuesOf(hs, WordSpacing), info.wordSpacing)
      && r.lineSpacingFactor == LastNumberOr(ValuesOf(hs, LineSpacingFactor), info.lineSpacingFactor)
    decreases |hs|
  {
    if hs != [] {
      var h := hs[0];
      HeadersOverwrite(ApplyEntry(info, h), hs[1..]);
      ApplyEntryFields(info, h);
      LastOrAppend(EntryValue(h, Encoding), ValuesOf(hs[1..], Encoding), info.encoding);
      LastOrAppend(EntryValue(h, License), ValuesOf(hs[1..], License), info.license);
      LastOrAppend(EntryValue(h, Created), ValuesOf(hs[1..], Created), info.created);
      LastNumberAppend(EntryValue(h, LetterSpacing), ValuesOf(hs[1..], LetterSpacing), info.letterSpacing);
      LastNumberAppend(EntryValue(h, WordSpacing), ValuesOf(hs[1..], WordSpacing), info.wordSpacing);
      LastNumberAppend(EntryValue(h, LineSpacingFactor), ValuesOf(hs[1..], LineSpacingFactor), info.lineSpacingFactor);
    }
  }

  // ---------------------------------------------------------------------------
  // Stroke lines

  datatype AcceptedVertex = AcceptedVertex(pos: Coord, bulge: Bulge)

  /** One ';'-part: at least two ','-fields; a third field starting with 'A' carries the bulge. */
  function ParseVertex(v: string): (r: Option<AcceptedVertex>)
    ensures r.Some? <==> |SplitSkipEmpty(v, ',')| >= 2
    ensures r.Some? ==> r.value.pos == Coord(SplitSkipEmpty(v, ',')[0], SplitSkipEmpty(v, ',')[1])
    ensures r.Some? && r.value.bulge.BulgeText? ==> |SplitSkipEmpty(v, ',')| == 3
    ensures r.Some? ==> var coords := SplitSkipEmpty(v, ',');
      r.value.bulge == if |coords| == 3 && coords[2][0] == 'A' then BulgeText(coords[2][1..]) else NoBulge
  {
    var coords := SplitSkipEmpty(v, ',');
    if |coords| < 2 then None
    else
      var bulge := if |coords| == 3 && coords[2][0] == 'A' then BulgeText(coords[2][1..]) else NoBulge;
      Some(AcceptedVertex(Coord(coords[0], coords[1]), bulge))
  }

  /** The vertices of a stroke line that are kept, in order. */
  function Accepted(vs: seq<string>): (r: seq<AcceptedVertex>)
    ensures |r| <= |vs|
  {
    if vs == [] then []
    else
      var init := Accepted(vs[..|vs| - 1]);
      match ParseVertex(vs[|vs| - 1])
      case None => init
      case Some(v) => init + [v]
  }

  /**
   * The polygon built from the accepted vertices: the first starts it, each
   * later one adds a segment to it with its bulge.
   */
  function PolygonFrom(acc: seq<AcceptedVertex>): (r: Option<Polygon>)
    ensures r.None? <==> acc == []
    ensures r.Some? ==> r.value.start == acc[0].pos
    ensures r.Some? ==> |r.value.segments| == |acc| - 1
  {
    if acc == [] then None
    else
      var last := acc[|acc| - 1];
      match PolygonFrom(acc[..|acc| - 1])
      case None => Some(Polygon(last.pos, []))
      case Some(p) => Some(p.(segments := p.segments + [Segment(last.pos, last.bulge)]))
  }

  /** Segment k of the polygon ends at accepted vertex k + 1, with that vertex's bulge. */
  lemma {:induction false} PolygonFromSegments(acc: seq<AcceptedVertex>)
    requires acc != []
    ensures forall k :: 0 <= k < |acc| - 1 ==>
      PolygonFrom(acc).value.segments[k] == Segment(acc[k + 1].pos, acc[k + 1].bulge)
  {
    var init := acc[..|acc| - 1];
    if init != [] {
      PolygonFromSegments(init);
      forall k | 0 <= k < |acc| - 1
        ensures PolygonFrom(acc).value.segments[k] == Segment(acc[k + 1].pos, acc[k + 1].bulge)
      {
        if k < |acc| - 2 {
          assert init[k + 1] == acc[k + 1];
        }
      }
    }
  }

  /** The bulge of the first vertex is read but never used. */
  lemma FirstBulgeDiscarded(v: AcceptedVertex, b: Bulge, rest: seq<AcceptedVertex>)
    ensures PolygonFrom([v] + rest) == PolygonFrom([v.(bulge := b)] + rest)
  {
    var p, q := PolygonFrom([v] + rest).value, PolygonFrom([v.(bulge := b)] + rest).value;
    PolygonFromSegments([v] + rest);
    PolygonFromSegments([v.(bulge := b)] + rest);
    assert p.segments == q.segments by {
      forall k | 0 <= k < |p.segments| ensures p.segments[k] == q.segments[k] {
        assert ([v] + rest)[k + 1] == ([v.(bulge := b)] + rest)[k + 1];
      }
    }
  }

  /**
   * What a stroke line adds to its glyph: nothing when it has fewer than two
   * ';'-parts, otherwise one entry, the null polygon when no part is a vertex.
   */
  function StrokeLineEntry(line: string): (r: Option<Option<Polygon>>)
    ensures r.None? <==> |SplitSkipEmpty(line, ';')| < 2
    ensures r.Some? ==> r.value == PolygonFrom(Accepted(SplitSkipEmpty(line, ';')))
  {
    var vertex := SplitSkipEmpty(line, ';');
    if |vertex| < 2 then None else Some(PolygonFrom(Accepted(vertex)))
  }

  /** A ';'-part that is not a vertex is dropped. */
  lemma VertexRejected(vs: seq<string>, i: nat)
    requires i < |vs| && ParseVertex(vs[i]).None?
    ensures Accepted(vs[..i + 1]) == Accepted(vs[..i])
  {
    assert vs[..i + 1][..i] == vs[..i];
  }

  /** A vertex starts the polygon, or adds a segment to it. */
  lemma VertexAccepted(vs: seq<string>, i: nat, v: AcceptedVertex, after: Option<Polygon>)
    requires i < |vs| && ParseVertex(vs[i]) == Some(v)
    requires var before := PolygonFrom(Accepted(vs[..i]));
      after == if before.None? then Some(Polygon(v.pos, []))
      else Some(before.value.(segments := before.value.segments + [Segment(v.pos, v.bulge)]))
    ensures Accepted(vs[..i + 1]) == Accepted(vs[..i]) + [v]
    ensures after == PolygonFrom(Accepted(vs[..i + 1]))
  {
    var acc := Accepted(vs[..i]);
    assert vs[..i + 1][..i] == vs[..i];
    assert (acc + [v])[..|acc|] == acc;
  }

  /** The body of the vertex loop of generateLffFont: one ';'-part read as a vertex. */
  method ReadVertex(part: string) returns (r: Option<AcceptedVertex>)
    ensures r == ParseVertex(part)
  {
    var coords := SplitSkipEmpty(part, ',');
    if |coords| < 2 {
      return None;
    }
    var bulge := NoBulge;
    if |coords| == 3 && coords[2][0] == 'A' {
      bulge := BulgeText(coords[2][1..]);
    }
    return Some(AcceptedVertex(Coord(coords[0], coords[1]), bulge));
  }

  /** One pass of the vertex loop: a vertex starts the polygon or adds a segment to it. */
  method AddVertex(vertex: seq<string>, i: nat, pline: Option<Polygon>) returns (next: Option<Polygon>)
    requires i < |vertex| && pline == PolygonFrom(Accepted(vertex[..i]))
    ensures next == PolygonFrom(Accepted(vertex[..i + 1]))
  {
    var parsed := ReadVertex(vertex[i]);
    if parsed.None? {
      VertexRejected(vertex, i);
      return pline;
    }
    var v := parsed.value;
    if pline.None? {
      next := Some(Polygon(v.pos, []));
    } else {
      next := Some(pline.value.(segments := pline.value.segments + [Segment(v.pos, v.bulge)]));
    }
    VertexAccepted(vertex, i, v, next);
  }

  /** The vertex loop of generateLffFont. */
  method ReadStrokeLine(line: string) returns (r: Option<Option<Polygon>>)
    ensures r == StrokeLineEntry(line)
  {
    var vertex := SplitSkipEmpty(line, ';');
    if |vertex| < 2 {
      return None;
    }
    var pline: Option<Polygon> := None;
    assert vertex[..0] == [];
    var i := 0;
    while i < |vertex|
      invariant i <= |vertex|
      invariant pline == PolygonFrom(Accepted(vertex[..i]))
    {
      pline := AddVertex(vertex, i, pline);
      i := i + 1;
    }
    assert vertex[..|vertex|] == vertex;
    return Some(pline);
  }

  // ---------------------------------------------------------------------------
  // generateLffFont

  /** The character a "C" line refers to: the rest of the line as a hexadecimal int, as a 16-bit code. */
  function CompositeCode(rest: string): (c: QChar)
    ensures ToIntHex(rest) < 0x10000 ==> c == ToIntHex(rest)
    ensures (ToIntHex(rest) - c) % 0x10000 == 0
  {
    ToIntHex(rest) % 0x10000
  }

  /** The result of building a glyph: the new letter table, or a cycle the source never returns from. */
  datatype Outcome = Built(letters: LetterTable) | Diverged

  lemma FewerUnvisited(raw: RawTable, visiting: set<QChar>, ch: QChar)
    requires ch in raw && ch !in visiting
    ensures |raw.Keys - (visiting + {ch})| < |raw.Keys - visiting|
  {
    var before, after := raw.Keys - visiting, raw.Keys - (visiting + {ch});
    assert before == after + {ch};
  }

  /**
   * generateLffFont(ch) with the glyphs whose building is in progress:
   * a character without a raw entry changes nothing; otherwise its lines are
   * read and the glyph is stored if it has at least one entry.
   */
  function Generate(raw: RawTable, letters: LetterTable, ch: QChar, visiting: set<QChar>): Outcome
    requires ch !in visiting
    decreases |raw.Keys - visiting|, 0
  {
    if ch !in raw then Built(letters)
    else
      FewerUnvisited(raw, visiting, ch);
      Lines(raw, letters, ch, raw[ch], visiting + {ch}, [])
  }

  /**
   * The while loop of generateLffFont over the remaining lines of ch, with
   * the entries collected so far. A "C" line reuses a built glyph, builds a
   * missing one first, adds nothing for a character without a raw entry, and
   * diverges on a character whose building is in progress.
   */
  function Lines(raw: RawTable, letters: LetterTable, ch: QChar, lines: seq<string>,
                 visiting: set<QChar>, acc: Letter): Outcome
    decreases |raw.Keys - visiting|, |lines| + 1
  {
    if lines == [] then Built(if acc != [] then letters[ch := acc] else letters)
    else
      var line, rest := lines[0], lines[1..];
      if line == [] then Lines(raw, letters, ch, rest, visiting, acc)
      else if line[0] == 'C' then
        var ref := CompositeCode(line[1..]);
        if ref in letters then Lines(raw, letters, ch, rest, visiting, acc + letters[ref])
        else if ref !in raw then Lines(raw, letters, ch, rest, visiting, acc)
        else if ref in visiting then Diverged
        else
          match Generate(raw, letters, ref, visiting)
          case Diverged => Diverged
          case Built(built) =>
            Lines(raw, built, ch, rest, visiting, acc + (if ref in built then built[ref] else []))
      else
        match StrokeLineEntry(line)
        case None => Lines(raw, letters, ch, rest, visiting, acc)
        case Some(p) => Lines(raw, letters, ch, rest, visiting, acc + [p])
  }

  /** Every stored glyph has at least one entry. */
  predicate NonEmptyLetters(letters: LetterTable)
  {
    forall c :: c in letters ==> letters[c] != []
  }

  /** Building never removes a glyph and stores only glyphs with entries. */
  lemma {:induction false} GenerateGrows(raw: RawTable, letters: LetterTable, ch: QChar, visiting: set<QChar>)
    requires ch !in visiting && NonEmptyLetters(letters)
    ensures Generate(raw, letters, ch, visiting).Built? ==>
      var built := Generate(raw, letters, ch, visiting).letters;
      letters.Keys <= built.Keys && NonEmptyLetters(built)
    ensures ch !in raw ==> Generate(raw, letters, ch, visiting) == Built(letters)
    decreases |raw.Keys - visiting|, 0
  {
    if ch in raw {
      FewerUnvisited(raw, visiting, ch);
      LinesGrow(raw, letters, ch, raw[ch], visiting + {ch}, []);
    }
  }

  lemma {:induction false} LinesGrow(raw: RawTable, letters: LetterTable, ch: QChar, lines: seq<string>,
                                     visiting: set<QChar>, acc: Letter)
    requires NonEmptyLetters(letters)
    ensures Lines(raw, letters, ch, lines, visiting, acc).Built? ==>
      var built := Lines(raw, letters, ch, lines, visiting, acc).letters;
      letters.Keys <= built.Keys && NonEmptyLetters(built) &&
      (ch in built ==> ch in letters || acc != [] || exists k :: 0 <= k < |lines| && lines[k] != [])
    decreases |raw.Keys - visiting|, |lines| + 1
  {
    if lines != [] {
      var line, rest := lines[0], lines[1..];
      assert forall k :: 0 <= k < |rest| ==> rest[k] == lines[k + 1];
      if line == [] {
        LinesGrow(raw, letters, ch, rest, visiting, acc);
      } else if line[0] == 'C' {
        var ref := CompositeCode(line[1..]);
        if ref in letters {
          LinesGrow(raw, letters, ch, rest, visiting, acc + letters[ref]);
        } else if ref !in raw {
          LinesGrow(raw, letters, ch, rest, visiting, acc);
        } else if ref !in visiting {
          GenerateGrows(raw, letters, ref, visiting);
          match Generate(raw, letters, ref, visiting)
          case Diverged =>
          case Built(built) =>
            LinesGrow(raw, built, ch, rest, visiting, acc + (if ref in built then built[ref] else []));
        }
      } else {
        match StrokeLineEntry(line)
        case None => LinesGrow(raw, letters, ch, rest, visiting, acc);
        case Some(p) => LinesGrow(raw, letters, ch, rest, visiting, acc + [p]);
      }
    }
  }

  /** A "C" line written with the upper-case hexadecimal code of a character refers to that character. */
  lemma CompositeCodeOf(r: QChar)
    ensures CompositeCode(("C" + HexText(r))[1..]) == r
  {
    assert ("C" + HexText(r))[1..] == HexText(r);
  }

  /** A glyph made of one reference to a built glyph is a copy of it. */
  lemma CompositeOfBuilt(raw: RawTable, letters: LetterTable, ch: QChar, r: QChar)
    requires ch in raw && raw[ch] == ["C" + HexText(r)]
    requires r in letters && letters[r] != []
    ensures Generate(raw, letters, ch, {}) == Built(letters[ch := letters[r]])
  {
    CompositeCodeOf(r);
    var line := "C" + HexText(r);
    assert line[0] == 'C';
    assert {} + {ch} == {ch};
    assert Generate(raw, letters, ch, {}) == Lines(raw, letters, ch, [line], {ch}, []);
    assert [] + letters[r] == letters[r];
    assert Lines(raw, letters, ch, [line], {ch}, []) == Lines(raw, letters, ch, [], {ch}, letters[r]);
  }

  /** A reference to a glyph not built yet builds it first, then copies it. */
  lemma CompositeBuildsFirst(raw: RawTable, letters: LetterTable, ch: QChar, r: QChar)
    requires NonEmptyLetters(letters)
    requires ch in raw && raw[ch] == ["C" + HexText(r)] && r != ch
    requires r in raw && r !in letters
    requires Generate(raw, letters, r, {ch}).Built?
    ensures var built := Generate(raw, letters, r, {ch}).letters;
      Generate(raw, letters, ch, {}) == Built(if r in built then built[ch := built[r]] else built)
  {
    CompositeCodeOf(r);
    GenerateGrows(raw, letters, r, {ch});
    var built := Generate(raw, letters, r, {ch}).letters;
    var line := "C" + HexText(r);
    assert line[0] == 'C';
    assert {} + {ch} == {ch};
    assert Generate(raw, letters, ch, {}) == Lines(raw, letters, ch, [line], {ch}, []);
    var copied := [] + (if r in built then built[r] else []);
    assert Lines(raw, letters, ch, [line], {ch}, []) == Lines(raw, built, ch, [], {ch}, copied);
    if r in built {
      assert copied == built[r];
    }
  }

  /** A reference to a character without a glyph block contributes nothing. */
  lemma CompositeOfMissing(raw: RawTable, letters: LetterTable, ch: QChar, r: QChar)
    requires ch in raw && raw[ch] == ["C" + HexText(r)]
    requires r !in raw && r !in letters
    ensures Generate(raw, letters, ch, {}) == Built(letters)
  {
    CompositeCodeOf(r);
    var line := "C" + HexText(r);
    assert line[0] == 'C';
    assert {} + {ch} == {ch};
    assert Generate(raw, letters, ch, {}) == Lines(raw, letters, ch, [line], {ch}, []);
    assert Lines(raw, letters, ch, [line], {ch}, []) == Lines(raw, letters, ch, [], {ch}, []);
  }

  /** A glyph that refers to itself before it is built recurses without end in the source. */
  lemma SelfReferenceDiverges(raw: RawTable, letters: LetterTable, ch: QChar)
    requires ch in raw && raw[ch] == ["C" + HexText(ch)]
    requires ch !in letters
    ensures Generate(raw, letters, ch, {}) == Diverged
  {
    CompositeCodeOf(ch);
  }

  /** generateAllFonts: each key of the raw table in turn, starting afresh with nothing in progress. */
  function GenerateAll(raw: RawTable, letters: LetterTable, keys: seq<QChar>): Outcome
    decreases |keys|
  {
    if keys == [] then Built(letters)
    else
      match Generate(raw, letters, keys[0], {})
      case Diverged => Diverged
      case Built(built) => GenerateAll(raw, built, keys[1..])
  }

  /** The keys of the raw table from code k on, in ascending order (the iteration order of a QMap). */
  function SortedKeys(raw: RawTable, k: nat): (r: seq<QChar>)
    requires k <= 0x10000
    ensures forall i, j :: 0 <= i < j < |r| ==> r[i] < r[j]
    ensures forall i :: 0 <= i < |r| ==> r[i] >= k
    ensures forall c: QChar :: c in r <==> c in raw && c >= k
    decreases 0x10000 - k
  {
    if k == 0x10000 then []
    else if k in raw then [k as QChar] + SortedKeys(raw, k + 1)
    else SortedKeys(raw, k + 1)
  }

  /** The inner loop of readLFF: the lines from k up to the first empty one. */
  method ReadGlyphBody(file: seq<string>, k: nat) returns (fontData: seq<string>, e: nat)
    requires k <= |file|
    ensures e == BodyEnd(file, k)
    ensures fontData == file[k..e]
  {
    fontData := [];
    e := k;
    while e < |file| && file[e] != []
      invariant k <= e <= |file|
      invariant fontData == file[k..e]
      invariant forall m :: k <= m < e ==> file[m] != []
      decreases |file| - e
    {
      fontData := fontData + [file[e]];
      e := e + 1;
    }
    BodyEndUnique(file, k, e);
  }

  // ---------------------------------------------------------------------------
  // The font object

  class Font {
    const fileName: string
    var loaded: bool
    var letterSpacing: Number
    var wordSpacing: Number
    var lineSpacingFactor: Number
    var authors: seq<string>
    var names: seq<string>
    var fileLicense: string
    var fileCreate: string
    var encoding: string
    /** rawLffFontList: the glyph blocks of the file, not yet turned into polygons. */
    var rawLffFontList: RawTable
    /** letterList: the glyphs built so far. */
    var letterList: LetterTable

    /** The metadata fields taken together. */
    function Info(): FontInfo
      reads this
    {
      FontInfo(letterSpacing, wordSpacing, lineSpacingFactor, authors, names, fileLicense, fileCreate, encoding)
    }

    constructor (fileName: string)
      ensures this.fileName == fileName
      ensures !loaded && Info() == InitialInfo
      ensures rawLffFontList == map[] && letterList == map[]
    {
      this.fileName := fileName;
      loaded := false;
      letterSpacing := Literal(3.0);
      wordSpacing := Literal(6.75);
      lineSpacingFactor := Literal(1.0);
      authors := [];
      names := [];
      fileLicense := "unknown";
      fileCreate := "";
      encoding := "";
      rawLffFontList := map[];
      letterList := map[];
    }

    /** loadFont: reads the file the first time only, and always reports success. */
    method LoadFont(file: seq<string>) returns (ok: bool)
      modifies this`loaded, this`letterSpacing, this`wordSpacing, this`lineSpacingFactor,
               this`authors, this`names, this`fileLicense, this`fileCreate, this`encoding,
               this`rawLffFontList
      ensures ok && loaded
      ensures old(loaded) ==> Info() == old(Info()) && rawLffFontList == old(rawLffFontList)
      ensures !old(loaded) ==>
        (Info(), rawLffFontList) == Scan(file, 0, old(Info()).(encoding := "UTF-8"), old(rawLffFontList))
    {
      if loaded {
        return true;
      }
      ReadLff(file);
      loaded := true;
      return true;
    }

    /** The header branch of readLFF. */
    method ReadHeader(rest: string)
      modifies this`letterSpacing, this`wordSpacing, this`lineSpacingFactor,
               this`authors, this`names, this`fileLicense, this`fileCreate, this`encoding
      ensures Info() == ApplyHeader(old(Info()), rest)
    {
      var lst := SplitSkipEmpty(rest, ':');
      if |lst| < 2 {
        assert Entry(rest) == None;
        return;
      }
      var identifier, value := LowerAscii(Trimmed(lst[0])), Trimmed(lst[1]);
      assert Entry(rest) == Some((KeyOf(identifier), value));
      SetHeader(KeyOf(identifier), value);
    }

    /** The comparisons of the header branch, once the key is known. */
    method SetHeader(key: HeaderKey, value: string)
      modifies this`letterSpacing, this`wordSpacing, this`lineSpacingFactor,
               this`authors, this`names, this`fileLicense, this`fileCreate, this`encoding
      ensures Info() == ApplyEntry(old(Info()), Some((key, value)))
    {
      match key
      case LetterSpacing => letterSpacing := Parsed(value);
      case WordSpacing => wordSpacing := Parsed(value);
      case LineSpacingFactor => lineSpacingFactor := Parsed(value);
      case Author => authors := authors + [value];
      case Name => names := names + [value];
      case License => fileLicense := value;
      case Encoding => encoding := value;
      case Created => fileCreate := value;
      case Unknown =>
    }

    /** readLFF over the lines of the file. */
    method ReadLff(file: seq<string>)
      modifies this`letterSpacing, this`wordSpacing, this`lineSpacingFactor,
               this`authors, this`names, this`fileLicense, this`fileCreate, this`encoding,
               this`rawLffFontList
      ensures (Info(), rawLffFontList) == Scan(file, 0, old(Info()).(encoding := "UTF-8"), old(rawLffFontList))
    {
      encoding := "UTF-8";
      ghost var target := Scan(file, 0, Info(), rawLffFontList);
      var i := 0;
      while i < |file|
        invariant i <= |file|
        invariant Scan(file, i, Info(), rawLffFontList) == target
        decreases |file| - i
      {
        ScanUnfold(file, i, Info(), rawLffFontList);
        i := ReadRecord(file, i);
      }
    }

    /** One pass of the loop of readLFF: the record starting at line i. */
    method ReadRecord(file: seq<string>, i: nat) returns (next: nat)
      requires i < |file|
      modifies this`letterSpacing, this`wordSpacing, this`lineSpacingFactor,
               this`authors, this`names, this`fileLicense, this`fileCreate, this`encoding,
               this`rawLffFontList
      ensures next == Next(file, i)
      ensures (Info(), rawLffFontList) == Step(file, i, old(Info()), old(rawLffFontList))
    {
      var line := file[i];
      next := i + 1;
      if line == [] {
        return;
      }
      if line[0] == '#' {
        ReadHeader(line[1..]);
      } else if line[0] == '[' {
        var cap := HexCapture(line);
        if cap.None? {
          return;
        }
        var ch := GlyphCode(cap.value);
        var fontData, j := ReadGlyphBody(file, i + 1);
        GlyphBlock(file, i, j, old(Info()), old(rawLffFontList));
        next := if j < |file| then j + 1 else j;
        if |fontData| > 0 {
          rawLffFontList := rawLffFontList[ch := fontData];
        }
      }
    }

    /**
     * generateLffFont(ch), with the glyphs in progress passed along: it gives
     * false, with letterList unspecified, exactly where the source recurses
     * without end.
     */
    method GenerateLffFont(ch: QChar, inProgress: set<QChar>) returns (ok: bool)
      requires ch !in inProgress
      modifies this`letterList
      ensures ok <==> Generate(rawLffFontList, old(letterList), ch, inProgress).Built?
      ensures ok ==> letterList == Generate(rawLffFontList, old(letterList), ch, inProgress).letters
      decreases |rawLffFontList.Keys - inProgress|, 0
    {
      if ch !in rawLffFontList {
        return true;
      }
      FewerUnvisited(rawLffFontList, inProgress, ch);
      var visiting := inProgress + {ch};
      ghost var target := Lines(rawLffFontList, letterList, ch, rawLffFontList[ch], visiting, []);
      var letter: Letter := [];
      var fontData := rawLffFontList[ch];
      while fontData != []
        invariant Lines(rawLffFontList, letterList, ch, fontData, visiting, letter) == target
        decreases |fontData|
      {
        ghost var before, linesBefore, letterBefore := letterList, fontData, letter;
        var line := fontData[0];
        fontData := fontData[1..];
        if line == [] {
          continue;
        }
        if line[0] == 'C' {
          var ref := CompositeCode(line[1..]);
          if ref !in letterList {
            if ref in rawLffFontList && ref in visiting {
              return false;
            }
            if ref in rawLffFontList {
              var built := GenerateLffFont(ref, visiting);
              if !built {
                return false;
              }
              assert Generate(rawLffFontList, before, ref, visiting) == Built(letterList);
            }
          }
          letter := letter + (if ref in letterList then letterList[ref] else []);
          assert letterBefore + [] == letterBefore;
        } else {
          var entry := ReadStrokeLine(line);
          if entry.Some? {
            letter := letter + [entry.value];
          }
        }
      }
      if letter != [] {
        letterList := letterList[ch := letter];
      }
      return true;
    }

    /** generateAllFonts: every key of rawLffFontList in ascending order. */
    method GenerateAllFonts() returns (ok: bool)
      modifies this`letterList
      ensures ok <==> GenerateAll(rawLffFontList, old(letterList), SortedKeys(rawLffFontList, 0)).Built?
      ensures ok ==> letterList == GenerateAll(rawLffFontList, old(letterList), SortedKeys(rawLffFontList, 0)).letters
    {
      var keys := SortedKeys(rawLffFontList, 0);
      for i := 0 to |keys|
        invariant GenerateAll(rawLffFontList, letterList, keys[i..]) ==
                  GenerateAll(rawLffFontList, old(letterList), keys)
      {
        assert keys[i..][1..] == keys[i + 1..];
        var built := GenerateLffFont(keys[i], {});
        if !built {
          return false;
        }
      }
      return true;
    }
  }

  /**
   * A font as its users open it: constructed with its file name, then loaded.
   * Every metadata getter then shows the file's headers: authors and names
   * in file order, every other setting from its last header or its default.
   */
  method OpenFont(fileName: string, file: seq<string>) returns (f: Font)
    ensures fresh(f) && f.fileName == fileName && f.loaded
    ensures var hs := HeaderLines(file, 0);
      && f.authors == ValuesOf(hs, Author)
      && f.names == ValuesOf(hs, Name)
      && f.encoding == LastOr(ValuesOf(hs, Encoding), "UTF-8")
      && f.fileLicense == LastOr(ValuesOf(hs, License), "unknown")
      && f.fileCreate == LastOr(ValuesOf(hs, Created), "")
      && f.letterSpacing == LastNumberOr(ValuesOf(hs, LetterSpacing), Literal(3.0))
      && f.wordSpacing == LastNumberOr(ValuesOf(hs, WordSpacing), Literal(6.75))
      && f.lineSpacingFactor == LastNumberOr(ValuesOf(hs, LineSpacingFactor), Literal(1.0))
    ensures f.rawLffFontList == Scan(file, 0, InitialInfo.(encoding := "UTF-8"), map[]).1
    ensures WellFormedRaw(f.rawLffFontList)
    ensures f.letterList == map[]
  {
    f := new Font(fileName);
    var ok := f.LoadFont(file);
    var start := InitialInfo.(encoding := "UTF-8");
    ScanHeaders(file, 0, start, map[]);
    HeadersAuthors(start, HeaderLines(file, 0));
    HeadersNames(start, HeaderLines(file, 0));
    HeadersOverwrite(start, HeaderLines(file, 0));
    ScanWellFormed(file, 0, start, map[]);
  }
}
