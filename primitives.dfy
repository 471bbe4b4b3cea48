/**
 * Value types shared by the stroke text entity, its edit command and the
 * stroke font: lengths, ratios, angles, points, alignments and paths, plus
 * the C++ integer operators they are computed with.
 */
module Primitives {

  datatype Option<+T> = None | Some(value: T)

  datatype Result<+T, +E> = Success(value: T) | Failure(error: E) {
    predicate IsFailure() { Failure? }
    function PropagateFailure<U>(): Result<U, E> requires Failure? { Failure(error) }
    function Extract(): T requires Success? { value }
  }

  /** A length in nanometres. */
  type Length = int

  /** A ratio in parts per million: 1000000 is 100 %. */
  type Ratio = int

  const Percent100: Ratio := 1000000

  /** Microdegrees in one full turn. */
  const FullTurn: int := 360000000

  /** An angle in microdegrees; the type keeps it strictly inside one full turn either way. */
  type Angle = a: int | -FullTurn < a < FullTurn

  datatype Point = Point(x: Length, y: Length) {
    function Plus(d: Point): Point { Point(x + d.x, y + d.y) }
  }

  const Origin := Point(0, 0)

  datatype Orientation = Horizontal | Vertical

  datatype HAlign = Left | HCenter | Right
  datatype VAlign = Bottom | VCenter | Top
  datatype Alignment = Alignment(h: HAlign, v: VAlign)

  /** A path vertex: its position and the arc angle of the segment that starts at it. */
  datatype Vertex = Vertex(pos: Point, angle: Angle)

  type Path = seq<Vertex>

  function Abs(a: int): nat { if a < 0 then -a else a }

  /** C++ integer division: the quotient is truncated toward zero. */
  function TruncDiv(a: int, b: int): (q: int)
    requires b != 0
    ensures Abs(q) == Abs(a) / Abs(b)
    ensures (a >= 0) == (b > 0) ==> q >= 0
    ensures (a >= 0) != (b > 0) ==> q <= 0
  {
    var n: nat, d: nat := Abs(a), Abs(b);
    NatDiv(n, d);
    if (a >= 0) == (b > 0) then n / d else -(n / d)
  }

  lemma NatDiv(n: nat, d: nat)
    requires d > 0
    ensures n / d >= 0
  {
  }

  /** C++ remainder: it takes the sign of the dividend. */
  function TruncRem(a: int, b: int): (r: int)
    requires b != 0
    ensures Abs(r) < Abs(b)
    ensures a >= 0 ==> r >= 0
    ensures a <= 0 ==> r <= 0
  {
    var n: nat, d: nat := Abs(a), Abs(b);
    if a >= 0 then n % d else -(n % d)
  }

  lemma TruncDivRem(a: int, b: int)
    requires b != 0
    ensures a == TruncDiv(a, b) * b + TruncRem(a, b)
  {
    var n, d := Abs(a), Abs(b);
    assert n == (n / d) * d + n % d;
    if a < 0 && b < 0 {
      assert -a == (n / d) * (-b) + n % d;
    } else if a < 0 {
      assert -a == (n / d) * b + n % d;
    } else if b < 0 {
      assert a == (n / d) * (-b) + n % d;
    }
  }

  lemma DivMonotone(a: nat, b: nat, d: nat)
    requires d > 0 && a <= b
    ensures a / d <= b / d
  {
    var q1, q2 := a / d, b / d;
    assert a == d * q1 + a % d;
    assert b == d * q2 + b % d;
    assert d * (q1 - q2) < d;
    MulBelow(d, q1 - q2);
  }

  lemma MulBelow(d: nat, k: int)
    requires d > 0 && d * k < d
    ensures k < 1
  {
  }

  /** Truncating division by a positive divisor keeps order. */
  lemma TruncDivMonotone(a: int, b: int, d: int)
    requires d > 0 && a <= b
    ensures TruncDiv(a, d) <= TruncDiv(b, d)
  {
    if a >= 0 {
      DivMonotone(a, b, d);
    } else if b < 0 {
      DivMonotone(-b, -a, d);
    }
  }

  /** Angle addition of the source's Angle type, which wraps into one full turn. */
  function AddAngle(a: Angle, b: Angle): (r: Angle)
    ensures Abs(r) < FullTurn
    ensures -FullTurn < a + b < FullTurn ==> r == a + b
  {
    TruncRem(a + b, FullTurn)
  }

  function TranslatedVertex(v: Vertex, d: Point): Vertex { v.(pos := v.pos.Plus(d)) }

  /** Path::translated: every vertex moved by d, arc angles kept. */
  function Translated(p: Path, d: Point): (r: Path)
    ensures |r| == |p|
  {
    seq(|p|, i requires 0 <= i < |p| => TranslatedVertex(p[i], d))
  }

  lemma TranslatedAt(p: Path, d: Point)
    ensures forall i :: 0 <= i < |p| ==> Translated(p, d)[i] == TranslatedVertex(p[i], d)
  {
  }

  /** Every path of ps translated by d, in order. */
  function TranslatedAll(ps: seq<Path>, d: Point): (r: seq<Path>)
    ensures |r| == |ps|
  {
    seq(|ps|, i requires 0 <= i < |ps| => Translated(ps[i], d))
  }

  lemma TranslatedAllAt(ps: seq<Path>, d: Point)
    ensures forall i :: 0 <= i < |ps| ==> TranslatedAll(ps, d)[i] == Translated(ps[i], d)
  {
  }

  lemma TranslatedAllAppend(a: seq<Path>, b: seq<Path>, d: Point)
    ensures TranslatedAll(a + b, d) == TranslatedAll(a, d) + TranslatedAll(b, d)
  {
  }

  /** Translating twice is translating once by the sum of the offsets. */
  lemma TranslatedAllTwice(ps: seq<Path>, d: Point, e: Point)
    ensures TranslatedAll(TranslatedAll(ps, d), e) == TranslatedAll(ps, d.Plus(e))
  {
    forall i | 0 <= i < |ps|
      ensures Translated(Translated(ps[i], d), e) == Translated(ps[i], d.Plus(e))
    {
      var p := ps[i];
      assert forall k :: 0 <= k < |p| ==>
        TranslatedVertex(TranslatedVertex(p[k], d), e) == TranslatedVertex(p[k], d.Plus(e));
    }
  }

  lemma TranslatedAllOrigin(ps: seq<Path>)
    ensures TranslatedAll(ps, Origin) == ps
  {
    forall i | 0 <= i < |ps| ensures Translated(ps[i], Origin) == ps[i] {
      var p := ps[i];
      assert forall k :: 0 <= k < |p| ==> TranslatedVertex(p[k], Origin) == p[k];
    }
  }
}
