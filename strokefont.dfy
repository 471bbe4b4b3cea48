/**
 * The stroke layout engine: the paths that draw a (possibly multi-line) text
 * with a stroke font. Glyph outlines come from a glyph table the font loads
 * once; the coordinates of a glyph vertex, its arc angle and the right edge
 * of a glyph's bounding box are library computations and enter the model as
 * functions in Geometry. What is modelled exactly is the layout arithmetic:
 * pen advance, the letter gap, line widths and the alignment offsets.
 */
module StrokeFonts {

  import opened Primitives
  import Strings

  /** The library computations the engine calls: vertex2point, vertex2angle, computeBoundingRect. */
  datatype Geometry<-V> = Geometry(
    vertexPoint: (V, Length) -> Point,
    vertexAngle: V -> Angle,
    rightEdge: seq<Path> -> Length)

  /** getAllPolylinesOfGlyph of a loaded glyph list: the polylines drawing a character. */
  type GlyphTable<V> = char -> seq<seq<V>>

  /** One line of strokeLines: its paths and its width. */
  datatype LineLayout = LineLayout(paths: seq<Path>, width: Length)

  /** The table of the font that was loaded, or of the empty font when loading failed. */
  function LoadedOrEmpty<V>(loaded: Option<GlyphTable<V>>): (g: GlyphTable<V>)
    ensures loaded.Some? ==> g == loaded.value
    ensures loaded.None? ==> forall c :: g(c) == []
  {
    if loaded.Some? then loaded.value else (c: char) => []
  }

  // ---------------------------------------------------------------------------
  // Polylines to paths

  /** polyline2path: vertex i at its position, with the arc angle of vertex (i+1) mod size. */
  function PathOf<V>(p: seq<V>, h: Length, geo: Geometry<V>): (r: Path)
    ensures |r| == |p|
    ensures forall i :: 0 <= i < |p| ==>
      r[i] == Vertex(geo.vertexPoint(p[i], h), geo.vertexAngle(p[(i + 1) % |p|]))
  {
    seq(|p|, i requires 0 <= i < |p| => Vertex(geo.vertexPoint(p[i], h), geo.vertexAngle(p[(i + 1) % |p|])))
  }

  /** polylines2paths: one path per non-empty polyline, in order. */
  function PathsOf<V>(ps: seq<seq<V>>, h: Length, geo: Geometry<V>): (r: seq<Path>)
    ensures |r| <= |ps|
    ensures forall i :: 0 <= i < |r| ==> r[i] != []
    ensures r == [] <==> forall j :: 0 <= j < |ps| ==> ps[j] == []
  {
    if ps == [] then []
    else
      var last := ps[|ps| - 1];
      PathsOf(ps[..|ps| - 1], h, geo) + (if last == [] then [] else [PathOf(last, h, geo)])
  }

  /** With no empty polyline, path i is exactly the path of polyline i. */
  lemma {:induction false} PathsOfNoEmpty<V>(ps: seq<seq<V>>, h: Length, geo: Geometry<V>)
    requires forall j :: 0 <= j < |ps| ==> ps[j] != []
    ensures |PathsOf(ps, h, geo)| == |ps|
    ensures forall j :: 0 <= j < |ps| ==> PathsOf(ps, h, geo)[j] == PathOf(ps[j], h, geo)
  {
    if ps != [] {
      var init := ps[..|ps| - 1];
      PathsOfNoEmpty(init, h, geo);
      assert PathsOf(ps, h, geo) == PathsOf(init, h, geo) + [PathOf(ps[|ps| - 1], h, geo)];
    }
  }

  /** Empty polylines contribute nothing: dropping them beforehand gives the same paths. */
  lemma {:induction false} PathsOfEmptyAppended<V>(ps: seq<seq<V>>, h: Length, geo: Geometry<V>)
    ensures PathsOf(ps + [[]], h, geo) == PathsOf(ps, h, geo)
  {
    assert (ps + [[]])[..|ps|] == ps;
  }

  // ---------------------------------------------------------------------------
  // One line

  /** The gap after each glyph, (height * 3) / 10 in integer arithmetic. */
  function Gap(h: Length): (g: Length)
    ensures h >= 0 ==> 0 <= g <= h
  {
    TruncDiv(h * 3, 10)
  }

  /** strokeGlyph: the paths of the polylines the table has for c. */
  function GlyphPaths<V>(g: GlyphTable<V>, geo: Geometry<V>, c: char, h: Length): seq<Path>
  {
    PathsOf(g(c), h, geo)
  }

  /** What one character contributes to a line: the paths it draws at the pen, and how far it moves the pen. */
  datatype CharLayout = CharLayout(paths: seq<Path>, advance: Length)

  /** A space draws nothing and moves the pen by the height; a glyph draws its paths and moves the pen by its right edge plus the gap. */
  function CharLayoutOf<V>(g: GlyphTable<V>, geo: Geometry<V>, c: char, h: Length): CharLayout
  {
    if c == ' ' then CharLayout([], h)
    else
      var glyph := GlyphPaths(g, geo, c, h);
      CharLayout(glyph, geo.rightEdge(glyph) + Gap(h))
  }

  function CharLayouts<V>(g: GlyphTable<V>, geo: Geometry<V>, line: string, h: Length): (r: seq<CharLayout>)
    ensures |r| == |line|
    ensures forall i :: 0 <= i < |line| ==> r[i] == CharLayoutOf(g, geo, line[i], h)
  {
    seq(|line|, i requires 0 <= i < |line| => CharLayoutOf(g, geo, line[i], h))
  }

  lemma CharLayoutsConcat<V>(g: GlyphTable<V>, geo: Geometry<V>, a: string, b: string, h: Length)
    ensures CharLayouts(g, geo, a + b, h) == CharLayouts(g, geo, a, h) + CharLayouts(g, geo, b, h)
  {
    var l, r := CharLayouts(g, geo, a + b, h), CharLayouts(g, geo, a, h) + CharLayouts(g, geo, b, h);
    forall i | 0 <= i < |l| ensures l[i] == r[i] {
      assert (a + b)[i] == if i < |a| then a[i] else b[i - |a|];
    }
  }

  /** The pen position after the characters of a line. */
  function PenAfter(cs: seq<CharLayout>): Length
  {
    if cs == [] then 0 else PenAfter(cs[..|cs| - 1]) + cs[|cs| - 1].advance
  }

  /** The paths of the characters, each moved right by the pen position before it. */
  function Drawn(cs: seq<CharLayout>): seq<Path>
  {
    if cs == [] then []
    else
      var init := cs[..|cs| - 1];
      Drawn(init) + TranslatedAll(cs[|cs| - 1].paths, Point(PenAfter(init), 0))
  }

  lemma {:induction false} PenAfterConcat(x: seq<CharLayout>, y: seq<CharLayout>)
    ensures PenAfter(x + y) == PenAfter(x) + PenAfter(y)
  {
    if y == [] {
      assert x + y == x;
    } else {
      var y' := y[..|y| - 1];
      assert (x + y)[..|x + y| - 1] == x + y';
      PenAfterConcat(x, y');
    }
  }

  lemma {:induction false} DrawnConcat(x: seq<CharLayout>, y: seq<CharLayout>)
    ensures Drawn(x + y) == Drawn(x) + TranslatedAll(Drawn(y), Point(PenAfter(x), 0))
  {
    if y == [] {
      assert x + y == x;
    } else {
      var y', c := y[..|y| - 1], y[|y| - 1];
      var dx, dy := Point(PenAfter(x), 0), Point(PenAfter(y'), 0);
      DrawnConcat(x, y');
      DrawnSnocConcat(x, y);
      ShiftedSnoc(Drawn(y'), c.paths, dy, dx);
      assert Drawn(y) == Drawn(y') + TranslatedAll(c.paths, dy);
      assert Drawn(x + y) ==
        (Drawn(x) + TranslatedAll(Drawn(y'), dx)) + TranslatedAll(c.paths, dy.Plus(dx));
    }
  }

  /** The last character of x + y is drawn at the pen position after x and the rest of y. */
  lemma DrawnSnocConcat(x: seq<CharLayout>, y: seq<CharLayout>)
    requires y != []
    ensures Drawn(x + y) == Drawn(x + y[..|y| - 1]) +
      TranslatedAll(y[|y| - 1].paths, Point(PenAfter(y[..|y| - 1]), 0).Plus(Point(PenAfter(x), 0)))
  {
    var y' := y[..|y| - 1];
    assert (x + y)[..|x + y| - 1] == x + y';
    assert (x + y)[|x + y| - 1] == y[|y| - 1];
    PenAfterConcat(x, y');
    assert Point(PenAfter(y'), 0).Plus(Point(PenAfter(x), 0)) == Point(PenAfter(x + y'), 0);
  }

  /** Moving paths already moved by dy by a further dx. */
  lemma ShiftedSnoc(a: seq<Path>, p: seq<Path>, dy: Point, dx: Point)
    ensures TranslatedAll(a + TranslatedAll(p, dy), dx) == TranslatedAll(a, dx) + TranslatedAll(p, dy.Plus(dx))
  {
    TranslatedAllAppend(a, TranslatedAll(p, dy), dx);
    TranslatedAllTwice(p, dy, dx);
  }

  /** The pen position after line (strokeLine's width before the final subtraction). */
  function Advance<V>(g: GlyphTable<V>, geo: Geometry<V>, line: string, h: Length): Length
  {
    PenAfter(CharLayouts(g, geo, line, h))
  }

  /** The paths strokeLine returns for line. */
  function LinePaths<V>(g: GlyphTable<V>, geo: Geometry<V>, line: string, h: Length): seq<Path>
  {
    Drawn(CharLayouts(g, geo, line, h))
  }

  /** The width strokeLine reports: the pen position less one gap, whatever the line holds. */
  function LineWidth<V>(g: GlyphTable<V>, geo: Geometry<V>, line: string, h: Length): Length
  {
    Advance(g, geo, line, h) - Gap(h)
  }

  /** Appending one character: its paths are drawn where the pen was, and the pen moves by its advance. */
  lemma LineSnoc<V>(g: GlyphTable<V>, geo: Geometry<V>, s: string, c: char, h: Length)
    ensures Advance(g, geo, s + [c], h) == Advance(g, geo, s, h) + CharLayoutOf(g, geo, c, h).advance
    ensures LinePaths(g, geo, s + [c], h) ==
      LinePaths(g, geo, s, h) + TranslatedAll(CharLayoutOf(g, geo, c, h).paths, Point(Advance(g, geo, s, h), 0))
  {
    var cs := CharLayouts(g, geo, s + [c], h);
    CharLayoutsConcat(g, geo, s, [c], h);
    assert cs[..|s|] == CharLayouts(g, geo, s, h);
  }

  /** Laying out a + b is laying out a, then b with its pen starting where a's stopped. */
  lemma LineConcat<V>(g: GlyphTable<V>, geo: Geometry<V>, a: string, b: string, h: Length)
    ensures Advance(g, geo, a + b, h) == Advance(g, geo, a, h) + Advance(g, geo, b, h)
    ensures LinePaths(g, geo, a + b, h) ==
      LinePaths(g, geo, a, h) + TranslatedAll(LinePaths(g, geo, b, h), Point(Advance(g, geo, a, h), 0))
  {
    CharLayoutsConcat(g, geo, a, b, h);
    PenAfterConcat(CharLayouts(g, geo, a, h), CharLayouts(g, geo, b, h));
    DrawnConcat(CharLayouts(g, geo, a, h), CharLayouts(g, geo, b, h));
  }

  /** A space moves the pen by the height and draws nothing. */
  lemma SpaceAppended<V>(g: GlyphTable<V>, geo: Geometry<V>, line: string, h: Length)
    ensures Advance(g, geo, line + [' '], h) == Advance(g, geo, line, h) + h
    ensures LinePaths(g, geo, line + [' '], h) == LinePaths(g, geo, line, h)
  {
    LineSnoc(g, geo, line, ' ', h);
  }

  /** A glyph's paths are drawn at the pen position, and the pen moves by its right edge plus the gap. */
  lemma GlyphAppended<V>(g: GlyphTable<V>, geo: Geometry<V>, line: string, c: char, h: Length)
    requires c != ' '
    ensures Advance(g, geo, line + [c], h) ==
      Advance(g, geo, line, h) + geo.rightEdge(GlyphPaths(g, geo, c, h)) + Gap(h)
    ensures LinePaths(g, geo, line + [c], h) ==
      LinePaths(g, geo, line, h) + TranslatedAll(GlyphPaths(g, geo, c, h), Point(Advance(g, geo, line, h), 0))
  {
    LineSnoc(g, geo, line, c, h);
  }

  /** A line of n spaces. */
  function Spaces(n: nat): (s: string)
    ensures |s| == n
  {
    if n == 0 then [] else Spaces(n - 1) + [' ']
  }

  /** An all-space line of n characters is n heights less one gap wide and draws nothing. */
  lemma {:induction false} AllSpacesLine<V>(g: GlyphTable<V>, geo: Geometry<V>, n: nat, h: Length)
    ensures LineWidth(g, geo, Spaces(n), h) == n * h - Gap(h)
    ensures LinePaths(g, geo, Spaces(n), h) == []
  {
    if n == 0 {
      assert CharLayouts(g, geo, [], h) == [];
    } else {
      AllSpacesLine(g, geo, n - 1, h);
      SpaceAppended(g, geo, Spaces(n - 1), h);
      assert Advance(g, geo, Spaces(n - 1), h) == (n - 1) * h;
      assert (n - 1) * h + h == n * h;
    }
  }

  /** A line of one glyph is as wide as the glyph's right edge and draws the glyph unmoved. */
  lemma SingleGlyphLine<V>(g: GlyphTable<V>, geo: Geometry<V>, c: char, h: Length)
    requires c != ' '
    ensures LineWidth(g, geo, [c], h) == geo.rightEdge(GlyphPaths(g, geo, c, h))
    ensures LinePaths(g, geo, [c], h) == GlyphPaths(g, geo, c, h)
  {
    GlyphAppended(g, geo, [], c, h);
    assert [] + [c] == [c];
    assert CharLayouts(g, geo, [], h) == [];
    TranslatedAllOrigin(GlyphPaths(g, geo, c, h));
  }

  // ---------------------------------------------------------------------------
  // Several lines

  /** strokeLines before the width: one entry per '\n'-separated line, empty lines included. */
  function LayoutLines<V>(g: GlyphTable<V>, geo: Geometry<V>, lines: seq<string>, h: Length): (r: seq<LineLayout>)
    ensures |r| == |lines|
    ensures forall i :: 0 <= i < |lines| ==>
      r[i] == LineLayout(LinePaths(g, geo, lines[i], h), LineWidth(g, geo, lines[i], h))
  {
    seq(|lines|, i requires 0 <= i < |lines| =>
      LineLayout(LinePaths(g, geo, lines[i], h), LineWidth(g, geo, lines[i], h)))
  }

  lemma LayoutLinesSnoc<V>(g: GlyphTable<V>, geo: Geometry<V>, lines: seq<string>, i: nat, h: Length)
    requires i < |lines|
    ensures LayoutLines(g, geo, lines[..i + 1], h) ==
      LayoutLines(g, geo, lines[..i], h) + [LineLayout(LinePaths(g, geo, lines[i], h), LineWidth(g, geo, lines[i], h))]
  {
    var l, r := LayoutLines(g, geo, lines[..i + 1], h), LayoutLines(g, geo, lines[..i], h);
    assert |l| == |r| + 1;
    forall k | 0 <= k < |l|
      ensures l[k] == (r + [LineLayout(LinePaths(g, geo, lines[i], h), LineWidth(g, geo, lines[i], h))])[k]
    {
      assert lines[..i + 1][k] == lines[k];
    }
  }

  /** The width strokeLines leaves in its in-out parameter: the larger of w and every line width. */
  function MaxWidth(w: Length, lines: seq<LineLayout>): Length
  {
    if lines == [] then w
    else
      var m := MaxWidth(w, lines[..|lines| - 1]);
      if lines[|lines| - 1].width > m then lines[|lines| - 1].width else m
  }

  lemma {:induction false} MaxWidthBounds(w: Length, lines: seq<LineLayout>)
    ensures MaxWidth(w, lines) >= w
    ensures forall i :: 0 <= i < |lines| ==> MaxWidth(w, lines) >= lines[i].width
    ensures MaxWidth(w, lines) == w || exists i :: 0 <= i < |lines| && MaxWidth(w, lines) == lines[i].width
  {
    if lines != [] {
      var init := lines[..|lines| - 1];
      MaxWidthBounds(w, init);
      assert forall i :: 0 <= i < |init| ==> init[i] == lines[i];
      if MaxWidth(w, lines) != w && MaxWidth(w, lines) != lines[|lines| - 1].width {
        var i :| 0 <= i < |init| && MaxWidth(w, init) == init[i].width;
        assert MaxWidth(w, lines) == lines[i].width;
      }
    }
  }

  /** Horizontal offset of a line of width w in a text of width totalWidth. */
  function HorizontalOffset(a: HAlign, totalWidth: Length, w: Length): (x: Length)
    ensures a == Left ==> x == 0
    ensures a == Right ==> x == -w
    ensures a == HCenter ==> Abs(x) == Abs(w) / 2 && (w >= 0 ==> x <= 0) && (w <= 0 ==> x >= 0)
  {
    match a
    case Left => 0
    case Right => (totalWidth - w) - totalWidth
    case HCenter => TruncDiv(w, -2)
  }

  /**
   * Vertical offset of line i of n, with the height h and the line spacing
   * ls in ppm. The source computes h * ls in double precision and converts
   * to a length by truncation; that is written as one truncating division.
   */
  function VerticalOffset(a: VAlign, i: int, n: int, h: Length, ls: Ratio): Length
  {
    match a
    case Bottom => TruncDiv((n - i - 1) * h * ls, Percent100)
    case Top => TruncDiv(-h * Percent100 - i * h * ls, Percent100)
    case VCenter =>
      TruncDiv((n - i - 1) * h * ls, Percent100) -
      TruncDiv(TruncDiv(h * Percent100 + (n - 1) * h * ls, Percent100), 2)
  }

  function LineOffset(align: Alignment, totalWidth: Length, w: Length, i: int, n: int,
                      h: Length, ls: Ratio): Point
  {
    Point(HorizontalOffset(align.h, totalWidth, w), VerticalOffset(align.v, i, n, h, ls))
  }

  /** Bottom alignment puts the last line on the baseline; top alignment hangs the first line one height below it. */
  lemma VerticalEnds(n: int, h: Length, ls: Ratio)
    ensures VerticalOffset(Bottom, n - 1, n, h, ls) == 0
    ensures VerticalOffset(Top, 0, n, h, ls) == -h
  {
    assert -h * Percent100 - 0 * h * ls == -h * Percent100;
  }

  /** With non-negative height and spacing, later lines never sit above earlier ones, whatever the alignment. */
  lemma LinesStackDownwards(a: VAlign, i: int, n: int, h: Length, ls: Ratio)
    requires h >= 0 && ls >= 0
    ensures VerticalOffset(a, i + 1, n, h, ls) <= VerticalOffset(a, i, n, h, ls)
  {
    var hl := h * ls;
    assert hl >= 0;
    assert (n - (i + 1) - 1) * h * ls == (n - i - 1) * h * ls - hl by {
      assert (n - (i + 1) - 1) * h * ls == (n - i - 1 - 1) * hl;
      assert (n - i - 1) * h * ls == (n - i - 1) * hl;
    }
    assert (i + 1) * h * ls == i * h * ls + hl by {
      assert (i + 1) * h * ls == (i + 1) * hl;
      assert i * h * ls == i * hl;
    }
    TruncDivMonotone((n - (i + 1) - 1) * h * ls, (n - i - 1) * h * ls, Percent100);
    TruncDivMonotone(-h * Percent100 - (i + 1) * h * ls, -h * Percent100 - i * h * ls, Percent100);
  }

  /** The paths of lines[..k], each line's paths moved by its offset, in line order. */
  function Placed(lines: seq<LineLayout>, k: nat, totalWidth: Length, h: Length, ls: Ratio,
                  align: Alignment): seq<Path>
    requires k <= |lines|
  {
    if k == 0 then []
    else
      Placed(lines, k - 1, totalWidth, h, ls, align) +
      TranslatedAll(lines[k - 1].paths, LineOffset(align, totalWidth, lines[k - 1].width, k - 1, |lines|, h, ls))
  }

  /** The number of paths of the lines. */
  function PathCount(lines: seq<LineLayout>): nat
  {
    if lines == [] then 0 else PathCount(lines[..|lines| - 1]) + |lines[|lines| - 1].paths|
  }

  /** Placing the lines neither drops nor adds a path. */
  lemma {:induction false} PlacedCount(lines: seq<LineLayout>, k: nat, totalWidth: Length, h: Length,
                                       ls: Ratio, align: Alignment)
    requires k <= |lines|
    ensures |Placed(lines, k, totalWidth, h, ls, align)| == PathCount(lines[..k])
  {
    if k > 0 {
      PlacedCount(lines, k - 1, totalWidth, h, ls, align);
      assert lines[..k][..k - 1] == lines[..k - 1];
    }
  }

  /** stroke: the text split into lines, laid out and aligned. */
  function StrokePaths<V>(g: GlyphTable<V>, geo: Geometry<V>, text: string, h: Length, ls: Ratio,
                          align: Alignment): seq<Path>
  {
    var lines := LayoutLines(g, geo, Strings.SplitKeep(text, '\n'), h);
    Placed(lines, |lines|, MaxWidth(0, lines), h, ls, align)
  }

  lemma NoNewlineCount(s: string)
    requires '\n' !in s
    ensures Strings.Count(s, '\n') == 0
  {
    if s != [] {
      assert '\n' !in s[1..] by { assert forall x :: x in s[1..] ==> x in s; }
      NoNewlineCount(s[1..]);
    }
  }

  /** A single bottom-left aligned line is drawn exactly as strokeLine lays it out. */
  lemma SingleLineBottomLeft<V>(g: GlyphTable<V>, geo: Geometry<V>, text: string, h: Length, ls: Ratio)
    requires '\n' !in text
    ensures StrokePaths(g, geo, text, h, ls, Alignment(Left, Bottom)) == LinePaths(g, geo, text, h)
  {
    NoNewlineCount(text);
    var parts := Strings.SplitKeep(text, '\n');
    Strings.JoinSplitKeep(text, '\n');
    assert parts == [text];
    var lines := LayoutLines(g, geo, parts, h);
    assert Placed(lines, 0, MaxWidth(0, lines), h, ls, Alignment(Left, Bottom)) == [];
    assert LineOffset(Alignment(Left, Bottom), MaxWidth(0, lines), lines[0].width, 0, 1, h, ls) == Origin;
    TranslatedAllOrigin(lines[0].paths);
  }

  // ---------------------------------------------------------------------------
  // The algorithms

  method PolylineToPath<V>(p: seq<V>, h: Length, geo: Geometry<V>) returns (path: Path)
    ensures path == PathOf(p, h, geo)
  {
    path := [];
    for i := 0 to |p|
      invariant path == PathOf(p, h, geo)[..i]
    {
      path := path + [Vertex(geo.vertexPoint(p[i], h), geo.vertexAngle(p[(i + 1) % |p|]))];
    }
  }

  method PolylinesToPaths<V>(ps: seq<seq<V>>, h: Length, geo: Geometry<V>) returns (paths: seq<Path>)
    ensures paths == PathsOf(ps, h, geo)
  {
    paths := [];
    for i := 0 to |ps|
      invariant paths == PathsOf(ps[..i], h, geo)
    {
      assert ps[..i + 1][..i] == ps[..i];
      if ps[i] != [] {
        var path := PolylineToPath(ps[i], h, geo);
        paths := paths + [path];
      }
    }
    assert ps[..|ps|] == ps;
  }

  /** Appends each of the paths moved by d (the inner foreach loops of strokeLine and stroke). */
  method AppendTranslated(acc: seq<Path>, ps: seq<Path>, d: Point) returns (r: seq<Path>)
    ensures r == acc + TranslatedAll(ps, d)
  {
    r := acc;
    for k := 0 to |ps|
      invariant r == acc + TranslatedAll(ps[..k], d)
    {
      assert TranslatedAll(ps[..k + 1], d) == TranslatedAll(ps[..k], d) + [Translated(ps[k], d)];
      r := r + [Translated(ps[k], d)];
    }
    assert ps[..|ps|] == ps;
  }

  /**
   * StrokeFont: the glyph table is produced by loading the font file, and
   * the accessor builds it from the load result at its first use.
   */
  class StrokeFont<V> {
    /** mFuture.result(): the loaded glyphs, or None when loading threw. */
    const loadResult: Option<GlyphTable<V>>
    const geo: Geometry<V>
    /** mFont / mGlyphListAccessor: empty until the first accessor call. */
    var cache: Option<GlyphTable<V>>

    constructor (loadResult: Option<GlyphTable<V>>, geo: Geometry<V>)
      ensures this.loadResult == loadResult && this.geo == geo && cache.None?
    {
      this.loadResult := loadResult;
      this.geo := geo;
      cache := None;
    }

    /** The table every lookup uses: the cached one, or the one the first lookup will build. */
    function Table(): GlyphTable<V>
      reads this
    {
      if cache.Some? then cache.value else LoadedOrEmpty(loadResult)
    }

    /** accessor: builds the table once, falling back to the empty font, and returns it. */
    method Accessor() returns (g: GlyphTable<V>)
      modifies this`cache
      ensures cache == Some(old(Table()))
      ensures g == Table() && Table() == old(Table())
    {
      if cache.None? {
        cache := Some(LoadedOrEmpty(loadResult));
      }
      g := cache.value;
    }

    method StrokeGlyph(c: char, h: Length) returns (paths: seq<Path>)
      modifies this`cache
      ensures Table() == old(Table())
      ensures paths == GlyphPaths(Table(), geo, c, h)
    {
      var g := Accessor();
      paths := PolylinesToPaths(g(c), h, geo);
    }

    method StrokeLine(line: string, h: Length) returns (paths: seq<Path>, width: Length)
      modifies this`cache
      ensures Table() == old(Table())
      ensures paths == LinePaths(Table(), geo, line, h)
      ensures width == LineWidth(Table(), geo, line, h)
    {
      ghost var g := Table();
      paths := [];
      width := 0;
      for i := 0 to |line|
        invariant Table() == g
        invariant paths == LinePaths(g, geo, line[..i], h)
        invariant width == Advance(g, geo, line[..i], h)
      {
        assert line[..i + 1] == line[..i] + [line[i]];
        LineSnoc(g, geo, line[..i], line[i], h);
        if line[i] == ' ' {
          width := width + h;
        } else {
          var glyphPaths := StrokeGlyph(line[i], h);
          paths := AppendTranslated(paths, glyphPaths, Point(width, 0));
          width := width + geo.rightEdge(glyphPaths);
          width := width + Gap(h);
        }
      }
      width := width - Gap(h);
      assert line[..|line|] == line;
    }

    method StrokeLines(text: string, h: Length, width0: Length) returns (lines: seq<LineLayout>, width: Length)
      modifies this`cache
      ensures Table() == old(Table())
      ensures lines == LayoutLines(Table(), geo, Strings.SplitKeep(text, '\n'), h)
      ensures width == MaxWidth(width0, lines)
    {
      ghost var g := Table();
      var parts := Strings.SplitKeep(text, '\n');
      lines := [];
      width := width0;
      for i := 0 to |parts|
        invariant Table() == g
        invariant lines == LayoutLines(g, geo, parts[..i], h)
        invariant width == MaxWidth(width0, lines)
      {
        var linePaths, lineWidth := StrokeLine(parts[i], h);
        LayoutLinesSnoc(g, geo, parts, i, h);
        ghost var before := lines;
        lines := lines + [LineLayout(linePaths, lineWidth)];
        assert lines[..|lines| - 1] == before;
        if lineWidth > width {
          width := lineWidth;
        }
      }
      assert parts[..|parts|] == parts;
    }

    method Stroke(text: string, h: Length, ls: Ratio, align: Alignment) returns (paths: seq<Path>)
      modifies this`cache
      ensures Table() == old(Table())
      ensures paths == StrokePaths(Table(), geo, text, h, ls, align)
    {
      var lines, totalWidth := StrokeLines(text, h, 0);
      paths := [];
      for i := 0 to |lines|
        invariant Table() == old(Table())
        invariant paths == Placed(lines, i, totalWidth, h, ls, align)
      {
        var pos := LineOffset(align, totalWidth, lines[i].width, i, |lines|, h, ls);
        paths := AppendTranslated(paths, lines[i].paths, pos);
      }
    }
  }
}
